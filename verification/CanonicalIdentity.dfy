/**
 The lossless identity encoding: integers a JSON number cannot carry are tagged, and
 objects that could be mistaken for a tag are escaped, so that a decoder recovers
 every value.
 */
module CanonicalIdentity {
  import opened Decimals

  const MAX_SAFE: int := 0x1F_FFFF_FFFF_FFFF

  const INTEGER_TAG := "$flameox.integer"
  const OBJECT_TAG := "$flameox.object"

  datatype Binary = Binary(mantissa: int, exponent: int)

  /** A finite double, as an odd number times a power of two; both zeros are one. */
  type Double = d: Binary | (d.mantissa % 2 == 1 && -MAX_SAFE <= d.mantissa <= MAX_SAFE) || d == Binary(0, 0)
    witness Binary(0, 0)

  /** A JSON value; the entries of an object are listed by key. */
  datatype Value =
    | Null
    | Bool(holds: bool)
    | Int(n: int)
    | Float(value: Double)
    | Str(s: string)
    | List(items: seq<Value>)
    | Dict(entries: seq<Entry>)

  datatype Entry = Entry(key: string, value: Value)

  function Keys(entries: seq<Entry>): (r: seq<string>)
    ensures |r| == |entries| && forall i | 0 <= i < |r| :: r[i] == entries[i].key
  {
    seq(|entries|, i requires 0 <= i < |entries| => entries[i].key)
  }

  /** Distinct keys in sorted order, at every level: one representation per object. */
  predicate Sorted(v: Value)
    decreases v, 0
  {
    match v
    case List(items) => SortedAll(items)
    case Dict(entries) => SortedEntries(entries)
    case _ => true
  }

  predicate SortedAll(items: seq<Value>)
    decreases items, 1
  {
    items == [] || (Sorted(items[0]) && SortedAll(items[1..]))
  }

  predicate SortedEntries(entries: seq<Entry>)
    decreases entries, 1
  {
    entries == [] ||
    (Sorted(entries[0].value) && SortedEntries(entries[1..]) && (|entries| > 1 ==> Less(entries[0].key, entries[1].key)))
  }

  predicate Safe(n: int) { -MAX_SAFE <= n <= MAX_SAFE }

  /** str(n). */
  function IntText(n: int): string {
    if n < 0 then "-" + Digits(-n) else Digits(n)
  }

  function ReadInt(s: string): int {
    if s != "" && s[0] == '-' then -Number(s[1..]) else Number(s)
  }

  lemma ReadIntText(n: int)
    ensures ReadInt(IntText(n)) == n
  {
    if n < 0 {
      NumberOfDigits(-n);
    } else {
      NumberOfDigits(n);
      assert IsDigit(Digits(n)[0]);
    }
  }

  predicate Reserved(entries: seq<Entry>) {
    INTEGER_TAG in Keys(entries) || OBJECT_TAG in Keys(entries)
  }

  function Pairs(entries: seq<Entry>): seq<Value> {
    if entries == [] then [] else [List([Str(entries[0].key), entries[0].value])] + Pairs(entries[1..])
  }

  /** _normalize_wide_integers. */
  function Normalize(v: Value): Value
    decreases v, 0
  {
    match v
    case Int(n) => if Safe(n) then v else Dict([Entry(INTEGER_TAG, Str(IntText(n)))])
    case List(items) => List(NormalizeAll(items))
    case Dict(entries) =>
      var normalized := NormalizeEntries(entries);
      if Reserved(normalized) then Dict([Entry(OBJECT_TAG, List(Pairs(normalized)))]) else Dict(normalized)
    case _ => v
  }

  function NormalizeAll(items: seq<Value>): (r: seq<Value>)
    ensures |r| == |items|
    decreases items, 1
  {
    if items == [] then [] else [Normalize(items[0])] + NormalizeAll(items[1..])
  }

  function NormalizeEntries(entries: seq<Entry>): (r: seq<Entry>)
    ensures |r| == |entries| && forall i | 0 <= i < |r| :: r[i].key == entries[i].key
    decreases entries, 1
  {
    if entries == [] then [] else [Entry(entries[0].key, Normalize(entries[0].value))] + NormalizeEntries(entries[1..])
  }

  /** The decoder: a tagged integer or object is what its tag says. */
  function Restore(v: Value): Value
    decreases v, 0
  {
    match v
    case List(items) => List(RestoreAll(items))
    case Dict(entries) =>
      if |entries| == 1 && entries[0].key == INTEGER_TAG && entries[0].value.Str? then Int(ReadInt(entries[0].value.s))
      else if |entries| == 1 && entries[0].key == OBJECT_TAG && entries[0].value.List? then
        Dict(RestorePairs(entries[0].value.items))
      else Dict(RestoreEntries(entries))
    case _ => v
  }

  function RestoreAll(items: seq<Value>): seq<Value>
    decreases items, 1
  {
    if items == [] then [] else [Restore(items[0])] + RestoreAll(items[1..])
  }

  function RestoreEntries(entries: seq<Entry>): seq<Entry>
    decreases entries, 1
  {
    if entries == [] then [] else [Entry(entries[0].key, Restore(entries[0].value))] + RestoreEntries(entries[1..])
  }

  function RestorePairs(items: seq<Value>): seq<Entry>
    decreases items, 1
  {
    if items == [] then []
    else
      (match items[0]
       case List(pair) =>
         if |pair| == 2 && pair[0].Str? then
           assert pair[1] < items[0];
           [Entry(pair[0].s, Restore(pair[1]))]
         else []
       case _ => [])
      + RestorePairs(items[1..])
  }

  /** Nothing is lost: the decoder undoes the encoding of every value. */
  lemma {:induction false} RestoreNormalize(v: Value)
    ensures Restore(Normalize(v)) == v
    decreases v, 0
  {
    match v
    case Int(n) =>
      ReadIntText(n);
    case List(items) =>
      RestoreNormalizeAll(items);
    case Dict(entries) =>
      RestoreNormalizePairs(entries);
      RestoreNormalizeEntries(entries);
      RestoreDict(entries);
    case _ =>
  }

  /** An object is restored from its escape, or is none. */
  lemma RestoreDict(entries: seq<Entry>)
    requires RestorePairs(Pairs(NormalizeEntries(entries))) == entries && RestoreEntries(NormalizeEntries(entries)) == entries
    ensures Restore(Normalize(Dict(entries))) == Dict(entries)
  {
    hide RestorePairs, RestoreEntries, NormalizeEntries, Pairs;
    var normalized := NormalizeEntries(entries);
    if !Reserved(normalized) && |normalized| == 1 {
      assert Keys(normalized)[0] == normalized[0].key;
    }
  }

  lemma {:induction false} RestoreNormalizeAll(items: seq<Value>)
    ensures RestoreAll(NormalizeAll(items)) == items
    decreases items, 1
  {
    if items != [] {
      RestoreNormalize(items[0]);
      RestoreNormalizeAll(items[1..]);
      assert NormalizeAll(items)[1..] == NormalizeAll(items[1..]);
    }
  }

  lemma {:induction false} RestoreNormalizeEntries(entries: seq<Entry>)
    ensures RestoreEntries(NormalizeEntries(entries)) == entries
    decreases entries, 1
  {
    if entries != [] {
      RestoreNormalize(entries[0].value);
      RestoreNormalizeEntries(entries[1..]);
      assert NormalizeEntries(entries)[1..] == NormalizeEntries(entries[1..]);
    }
  }

  lemma RestoreOnePair(key: string, value: Value, rest: seq<Value>)
    ensures RestorePairs([List([Str(key), value])] + rest) == [Entry(key, Restore(value))] + RestorePairs(rest)
  {
    var items := [List([Str(key), value])] + rest;
    assert items[1..] == rest;
  }

  lemma NormalizeOneMore(entries: seq<Entry>)
    requires entries != []
    ensures NormalizeEntries(entries)
         == [Entry(entries[0].key, Normalize(entries[0].value))] + NormalizeEntries(entries[1..])
    ensures NormalizeEntries(entries)[1..] == NormalizeEntries(entries[1..])
  {
  }

  lemma PairsOneMore(entries: seq<Entry>)
    requires entries != []
    ensures Pairs(entries) == [List([Str(entries[0].key), entries[0].value])] + Pairs(entries[1..])
  {
  }

  lemma {:induction false} RestoreNormalizePairs(entries: seq<Entry>)
    ensures RestorePairs(Pairs(NormalizeEntries(entries))) == entries
    decreases entries, 1
  {
    if entries != [] {
      RestoreNormalize(entries[0].value);
      RestoreNormalizePairs(entries[1..]);
      hide *;
      NormalizeOneMore(entries);
      var normalized := NormalizeEntries(entries);
      PairsOneMore(normalized);
      RestoreOnePair(entries[0].key, Normalize(entries[0].value), Pairs(normalized[1..]));
      assert entries == [entries[0]] + entries[1..];
    }
  }

  /** Two values with one encoding are one value. */
  lemma Injective(a: Value, b: Value)
    requires Normalize(a) == Normalize(b)
    ensures a == b
  {
    RestoreNormalize(a);
    RestoreNormalize(b);
  }

  /** Every integer is one a JSON number carries exactly. */
  predicate AllSafe(v: Value)
    decreases v, 0
  {
    match v
    case Int(n) => Safe(n)
    case List(items) => AllSafeItems(items)
    case Dict(entries) => AllSafeEntries(entries)
    case _ => true
  }

  predicate AllSafeItems(items: seq<Value>)
    decreases items, 1
  {
    items == [] || (AllSafe(items[0]) && AllSafeItems(items[1..]))
  }

  predicate AllSafeEntries(entries: seq<Entry>)
    decreases entries, 1
  {
    entries == [] || (AllSafe(entries[0].value) && AllSafeEntries(entries[1..]))
  }

  lemma {:induction false} NormalizedIsSafe(v: Value)
    ensures AllSafe(Normalize(v))
    decreases v, 0
  {
    match v
    case Int(n) =>
    case List(items) => NormalizedItemsSafe(items);
    case Dict(entries) =>
      NormalizedEntriesSafe(entries);
      if Reserved(NormalizeEntries(entries)) {
        SafePairs(NormalizeEntries(entries));
      }
    case _ =>
  }

  lemma {:induction false} NormalizedItemsSafe(items: seq<Value>)
    ensures AllSafeItems(NormalizeAll(items))
    decreases items, 1
  {
    if items != [] {
      NormalizedIsSafe(items[0]);
      NormalizedItemsSafe(items[1..]);
      assert NormalizeAll(items)[1..] == NormalizeAll(items[1..]);
    }
  }

  lemma {:induction false} NormalizedEntriesSafe(entries: seq<Entry>)
    ensures AllSafeEntries(NormalizeEntries(entries))
    decreases entries, 1
  {
    if entries != [] {
      NormalizedIsSafe(entries[0].value);
      NormalizedEntriesSafe(entries[1..]);
      assert NormalizeEntries(entries)[1..] == NormalizeEntries(entries[1..]);
    }
  }

  lemma {:induction false} SafePairs(entries: seq<Entry>)
    requires AllSafeEntries(entries)
    ensures AllSafeItems(Pairs(entries))
  {
    if entries != [] {
      SafePairs(entries[1..]);
      assert Pairs(entries)[1..] == Pairs(entries[1..]);
      var pair := [Str(entries[0].key), entries[0].value];
      assert AllSafeItems(pair[1..][1..]);
      assert AllSafeItems(pair[1..]);
      assert AllSafe(List(pair));
    }
  }

  /** Encoded objects list their keys in order too. */
  lemma {:induction false} NormalizedIsSorted(v: Value)
    requires Sorted(v)
    ensures Sorted(Normalize(v))
    decreases v, 0
  {
    match v
    case List(items) => NormalizedItemsSorted(items);
    case Dict(entries) =>
      NormalizedEntriesSorted(entries);
      if Reserved(NormalizeEntries(entries)) {
        SortedPairs(NormalizeEntries(entries));
      }
    case _ =>
  }

  lemma {:induction false} NormalizedItemsSorted(items: seq<Value>)
    requires SortedAll(items)
    ensures SortedAll(NormalizeAll(items))
    decreases items, 1
  {
    if items != [] {
      NormalizedIsSorted(items[0]);
      NormalizedItemsSorted(items[1..]);
      assert NormalizeAll(items)[1..] == NormalizeAll(items[1..]);
    }
  }

  lemma {:induction false} NormalizedEntriesSorted(entries: seq<Entry>)
    requires SortedEntries(entries)
    ensures SortedEntries(NormalizeEntries(entries))
    decreases entries, 1
  {
    if entries != [] {
      NormalizedIsSorted(entries[0].value);
      NormalizedEntriesSorted(entries[1..]);
      assert NormalizeEntries(entries)[1..] == NormalizeEntries(entries[1..]);
    }
  }

  lemma {:induction false} SortedPairs(entries: seq<Entry>)
    requires SortedEntries(entries)
    ensures SortedAll(Pairs(entries))
  {
    if entries != [] {
      SortedPairs(entries[1..]);
      assert Pairs(entries)[1..] == Pairs(entries[1..]);
      var pair := [Str(entries[0].key), entries[0].value];
      assert SortedAll(pair[1..][1..]);
      assert SortedAll(pair[1..]);
      assert Sorted(List(pair));
    }
  }

  /** Neither a wide integer nor a reserved key anywhere. */
  predicate Ordinary(v: Value)
    decreases v, 0
  {
    match v
    case Int(n) => Safe(n)
    case List(items) => OrdinaryItems(items)
    case Dict(entries) => !Reserved(entries) && OrdinaryEntries(entries)
    case _ => true
  }

  predicate OrdinaryItems(items: seq<Value>)
    decreases items, 1
  {
    items == [] || (Ordinary(items[0]) && OrdinaryItems(items[1..]))
  }

  predicate OrdinaryEntries(entries: seq<Entry>)
    decreases entries, 1
  {
    entries == [] || (Ordinary(entries[0].value) && OrdinaryEntries(entries[1..]))
  }

  /** The encoding leaves a value alone exactly when it is ordinary. */
  lemma {:induction false} UnchangedIffOrdinary(v: Value)
    ensures Normalize(v) == v <==> Ordinary(v)
    decreases v, 0
  {
    match v
    case List(items) => ItemsUnchanged(items);
    case Dict(entries) =>
      EntriesUnchanged(entries);
      if Reserved(entries) && Normalize(v) == v {
        Escaped(entries);
        assert false;
      }
    case _ =>
  }

  lemma {:induction false} ItemsUnchanged(items: seq<Value>)
    ensures NormalizeAll(items) == items <==> OrdinaryItems(items)
    decreases items, 1
  {
    if items != [] {
      UnchangedIffOrdinary(items[0]);
      ItemsUnchanged(items[1..]);
      hide Normalize, Ordinary;
      var normalized := NormalizeAll(items);
      assert normalized == [Normalize(items[0])] + NormalizeAll(items[1..]);
      assert items == [items[0]] + items[1..];
      assert normalized == items ==> normalized[0] == items[0] && normalized[1..] == items[1..];
    }
  }

  lemma OrdinaryOneMore(entries: seq<Entry>)
    requires entries != []
    ensures OrdinaryEntries(entries) <==> Ordinary(entries[0].value) && OrdinaryEntries(entries[1..])
  {
  }

  lemma SameParts(first: Entry, rest: seq<Entry>, entries: seq<Entry>)
    requires entries != []
    ensures [first] + rest == entries <==> first == entries[0] && rest == entries[1..]
  {
    assert entries == [entries[0]] + entries[1..];
    assert ([first] + rest)[0] == first && ([first] + rest)[1..] == rest;
  }

  lemma {:induction false} EntriesUnchanged(entries: seq<Entry>)
    ensures NormalizeEntries(entries) == entries <==> OrdinaryEntries(entries)
    decreases entries, 1
  {
    if entries != [] {
      UnchangedIffOrdinary(entries[0].value);
      EntriesUnchanged(entries[1..]);
      OrdinaryOneMore(entries);
      hide *;
      var first := Entry(entries[0].key, Normalize(entries[0].value));
      NormalizeOneMore(entries);
      SameParts(first, NormalizeEntries(entries[1..]), entries);
    }
  }

  /** How deep a value is nested. */
  function Height(v: Value): nat
    decreases v, 0
  {
    match v
    case List(items) => 1 + HeightItems(items)
    case Dict(entries) => 1 + HeightEntries(entries)
    case _ => 0
  }

  function HeightItems(items: seq<Value>): nat
    decreases items, 1
  {
    if items == [] then 0 else Max(Height(items[0]), HeightItems(items[1..]))
  }

  function HeightEntries(entries: seq<Entry>): nat
    decreases entries, 1
  {
    if entries == [] then 0 else Max(Height(entries[0].value), HeightEntries(entries[1..]))
  }

  function Max(a: nat, b: nat): nat { if a < b then b else a }

  lemma {:induction false} HeightKept(v: Value)
    ensures Height(Normalize(v)) >= Height(v)
    decreases v, 0
  {
    match v
    case List(items) => HeightItemsKept(items);
    case Dict(entries) =>
      HeightEntriesKept(entries);
      if Reserved(NormalizeEntries(entries)) {
        HeightPairs(NormalizeEntries(entries));
        HeightTag(OBJECT_TAG, List(Pairs(NormalizeEntries(entries))));
      }
    case _ =>
  }

  lemma HeightTag(key: string, v: Value)
    ensures Height(Dict([Entry(key, v)])) == 1 + Height(v)
  {
    var entries := [Entry(key, v)];
    assert HeightEntries(entries[1..]) == 0;
    assert HeightEntries(entries) == Height(v);
  }

  lemma {:induction false} HeightItemsKept(items: seq<Value>)
    ensures HeightItems(NormalizeAll(items)) >= HeightItems(items)
    decreases items, 1
  {
    if items != [] {
      HeightKept(items[0]);
      HeightItemsKept(items[1..]);
      assert NormalizeAll(items)[1..] == NormalizeAll(items[1..]);
    }
  }

  lemma {:induction false} HeightEntriesKept(entries: seq<Entry>)
    ensures HeightEntries(NormalizeEntries(entries)) >= HeightEntries(entries)
    decreases entries, 1
  {
    if entries != [] {
      HeightKept(entries[0].value);
      HeightEntriesKept(entries[1..]);
      assert NormalizeEntries(entries)[1..] == NormalizeEntries(entries[1..]);
    }
  }

  lemma {:induction false} HeightPairs(entries: seq<Entry>)
    ensures HeightItems(Pairs(entries)) >= HeightEntries(entries)
  {
    if entries != [] {
      HeightPairs(entries[1..]);
      assert Pairs(entries)[1..] == Pairs(entries[1..]);
      var pair := [Str(entries[0].key), entries[0].value];
      assert HeightItems(pair[1..][1..]) == 0;
      assert HeightItems(pair[1..]) == Height(entries[0].value);
      assert Height(List(pair)) >= Height(entries[0].value);
    }
  }

  /** An escaped object is nested deeper than the one it stands for. */
  lemma Escaped(entries: seq<Entry>)
    requires Reserved(entries)
    ensures Normalize(Dict(entries)) != Dict(entries)
  {
    var normalized := NormalizeEntries(entries);
    HeightEntriesKept(entries);
    HeightPairs(normalized);
    HeightTag(OBJECT_TAG, List(Pairs(normalized)));
  }

  function Pow2(n: nat): (r: nat)
    ensures r >= 1
  {
    if n == 0 then 1 else 2 * Pow2(n - 1)
  }

  lemma {:induction false} Pow2Sum(a: nat, b: nat)
    ensures Pow2(a + b) == Pow2(a) * Pow2(b)
  {
    if a > 0 {
      Pow2Sum(a - 1, b);
    }
  }

  lemma SmallPowers()
    ensures Pow2(4) == 16 && Pow2(5) == 32
  {
    assert Pow2(1) == 2 && Pow2(2) == 4 && Pow2(3) == 8;
  }

  /** Safe integers are those below 2 to the 53rd in magnitude, which a double holds
      together with their neighbours. */
  lemma SafeIs(n: int)
    ensures Safe(n) <==> -(Pow2(53) as int) < n < Pow2(53)
  {
    hide Pow2;
    SmallPowers();
    Pow2Sum(4, 4);
    Pow2Sum(8, 8);
    Pow2Sum(16, 16);
    Pow2Sum(32, 16);
    Pow2Sum(48, 5);
    assert Pow2(53) == MAX_SAFE + 1;
  }

  /** The number a JSON reader sees: an integral double in the safe range is written,
      and read, as the integer it is. */
  function AsRead(d: Double): Value {
    if d.exponent >= 0 && Safe(d.mantissa * Pow2(d.exponent)) then Int(d.mantissa * Pow2(d.exponent)) else Float(d)
  }

  /** A value with its integral doubles read as integers. */
  function Read(v: Value): Value
    decreases v, 0
  {
    match v
    case Float(d) => AsRead(d)
    case List(items) => List(ReadAll(items))
    case Dict(entries) => Dict(ReadEntries(entries))
    case _ => v
  }

  function ReadAll(items: seq<Value>): (r: seq<Value>)
    ensures |r| == |items|
    decreases items, 1
  {
    if items == [] then [] else [Read(items[0])] + ReadAll(items[1..])
  }

  function ReadEntries(entries: seq<Entry>): (r: seq<Entry>)
    ensures |r| == |entries| && forall i | 0 <= i < |r| :: r[i].key == entries[i].key
    decreases entries, 1
  {
    if entries == [] then [] else [Entry(entries[0].key, Read(entries[0].value))] + ReadEntries(entries[1..])
  }

  lemma {:induction false} ReadPairs(entries: seq<Entry>)
    ensures ReadAll(Pairs(entries)) == Pairs(ReadEntries(entries))
  {
    if entries != [] {
      ReadPairs(entries[1..]);
      ReadPair(entries[0].key, entries[0].value);
      hide Read;
      assert Pairs(entries)[1..] == Pairs(entries[1..]);
      assert ReadEntries(entries)[1..] == ReadEntries(entries[1..]);
    }
  }

  lemma ReadPair(key: string, value: Value)
    ensures Read(List([Str(key), value])) == List([Str(key), Read(value)])
  {
    var pair := [Str(key), value];
    assert pair[1..] == [value] && [value][1..] == [];
    assert ReadAll([value]) == [Read(value)] + ReadAll([]);
    assert ReadAll(pair) == [Str(key)] + ReadAll([value]);
  }

  /** Encoding a value and reading its doubles as integers go in either order. */
  lemma {:induction false} ReadNormalize(v: Value)
    ensures Read(Normalize(v)) == Normalize(Read(v))
    decreases v, 0
  {
    match v
    case Int(n) =>
      if !Safe(n) {
        var tag := [Entry(INTEGER_TAG, Str(IntText(n)))];
        assert ReadEntries(tag[1..]) == [];
        assert ReadEntries(tag) == tag;
      }
    case List(items) => ReadNormalizeAll(items);
    case Dict(entries) =>
      ReadNormalizeEntries(entries);
      ReadDict(entries);
    case _ =>
  }

  /** Reading touches no key, so it escapes nothing and leaves every escape alone. */
  lemma ReadDict(entries: seq<Entry>)
    requires ReadEntries(NormalizeEntries(entries)) == NormalizeEntries(ReadEntries(entries))
    ensures Read(Normalize(Dict(entries))) == Normalize(Read(Dict(entries)))
  {
    var normalized := NormalizeEntries(entries);
    var read := ReadEntries(normalized);
    SameReserved(normalized);
    ReadPairs(normalized);
    ReadOne(OBJECT_TAG, List(Pairs(normalized)));
    ReadIsDict(entries);
    ReadIsDict(normalized);
    ReadIsList(Pairs(normalized));
    hide Read, ReadEntries, NormalizeEntries, Reserved, Pairs;
    if Reserved(normalized) {
      ReadIsDict([Entry(OBJECT_TAG, List(Pairs(normalized)))]);
    }
  }

  lemma SameReserved(entries: seq<Entry>)
    ensures Reserved(ReadEntries(entries)) <==> Reserved(entries)
  {
    assert Keys(ReadEntries(entries)) == Keys(entries);
  }

  lemma ReadIsDict(entries: seq<Entry>)
    ensures Read(Dict(entries)) == Dict(ReadEntries(entries))
  {
  }

  lemma ReadIsList(items: seq<Value>)
    ensures Read(List(items)) == List(ReadAll(items))
  {
  }

  lemma ReadOne(key: string, value: Value)
    ensures ReadEntries([Entry(key, value)]) == [Entry(key, Read(value))]
  {
    assert [Entry(key, value)][1..] == [];
  }

  lemma {:induction false} ReadNormalizeAll(items: seq<Value>)
    ensures ReadAll(NormalizeAll(items)) == NormalizeAll(ReadAll(items))
    decreases items, 1
  {
    if items != [] {
      ReadNormalize(items[0]);
      ReadNormalizeAll(items[1..]);
      hide Read, Normalize;
      assert NormalizeAll(items)[1..] == NormalizeAll(items[1..]);
      assert ReadAll(items)[1..] == ReadAll(items[1..]);
    }
  }

  lemma {:induction false} ReadNormalizeEntries(entries: seq<Entry>)
    ensures ReadEntries(NormalizeEntries(entries)) == NormalizeEntries(ReadEntries(entries))
    decreases entries, 1
  {
    if entries != [] {
      ReadNormalize(entries[0].value);
      ReadNormalizeEntries(entries[1..]);
      hide Read, Normalize;
      assert NormalizeEntries(entries)[1..] == NormalizeEntries(entries[1..]);
      assert ReadEntries(entries)[1..] == ReadEntries(entries[1..]);
    }
  }

  /** A serializer of canonical JSON: of values with ordered keys and safe integers it
      writes two alike exactly when they are read alike. */
  ghost predicate Canonicalizes(serialize: Value -> string) {
    forall x: Value, y: Value | Sorted(x) && AllSafe(x) && Sorted(y) && AllSafe(y) ::
      serialize(x) == serialize(y) <==> Read(x) == Read(y)
  }

  /** canonical_identity_bytes: two identities are one exactly when the values agree
      once integral safe doubles are read as the integers they are. */
  lemma IdentityExact(serialize: Value -> string, a: Value, b: Value)
    requires Canonicalizes(serialize) && Sorted(a) && Sorted(b)
    ensures serialize(Normalize(a)) == serialize(Normalize(b)) <==> Read(a) == Read(b)
  {
    hide Read, Normalize;
    NormalizedIsSafe(a);
    NormalizedIsSafe(b);
    NormalizedIsSorted(a);
    NormalizedIsSorted(b);
    ReadNormalize(a);
    ReadNormalize(b);
    if Normalize(Read(a)) == Normalize(Read(b)) {
      Injective(Read(a), Read(b));
    }
  }

  /** Values without integral safe doubles. */
  predicate Exact(v: Value) {
    Read(v) == v
  }

  /** Where no double is an integer in disguise, different values have different
      identities. */
  lemma IdentityInjective(serialize: Value -> string, a: Value, b: Value)
    requires Canonicalizes(serialize) && Sorted(a) && Sorted(b) && Exact(a) && Exact(b)
    ensures serialize(Normalize(a)) == serialize(Normalize(b)) <==> a == b
  {
    hide Read, Normalize;
    IdentityExact(serialize, a, b);
  }

  /** The integer 1 and the double 1.0 share their identity. */
  lemma OneIsOnePointZero(serialize: Value -> string)
    requires Canonicalizes(serialize)
    ensures Int(1) != Float(Binary(1, 0)) && serialize(Normalize(Int(1))) == serialize(Normalize(Float(Binary(1, 0))))
  {
    IdentityExact(serialize, Int(1), Float(Binary(1, 0)));
    assert Pow2(0) == 1;
  }
}
