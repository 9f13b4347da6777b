/**
 Paging through the evidence inventory: one loop over the sorted bundles a page,
 and a cursor that ties the page to its inventory and its filters.
 */
module InventoryQuery {
  import opened Results
  import opened Pages
  import Base64Url

  type Bytes = seq<Base64Url.Byte>

  /** The entries that match, in order. */
  function Filter<T>(xs: seq<T>, matches: T -> bool): seq<T> {
    if xs == [] then []
    else (if matches(xs[0]) then [xs[0]] else []) + Filter(xs[1..], matches)
  }

  lemma {:induction false} FilterJoin<T>(a: seq<T>, b: seq<T>, matches: T -> bool)
    ensures Filter(a + b, matches) == Filter(a, matches) + Filter(b, matches)
  {
    if a == [] {
      assert a + b == b;
    } else {
      FilterJoin(a[1..], b, matches);
      assert (a + b)[1..] == a[1..] + b;
      assert (a + b)[0] == a[0];
      var head := if matches(a[0]) then [a[0]] else [];
      var p, q := Filter(a[1..], matches), Filter(b, matches);
      assert Filter(a, matches) == head + p;
      assert Filter(a + b, matches) == head + (p + q);
      assert head + (p + q) == (head + p) + q;
    }
  }

  datatype Page<T> = Page(evidence: seq<T>, next: Option<nat>)

  /** The matches from an offset on up to the limit, and where the next match
      behind them stands. */
  ghost predicate IsPage<T>(inventory: seq<T>, matches: T -> bool, limit: nat, offset: nat, page: Page<T>) {
    && offset <= |inventory|
    && match page.next
       case None => page.evidence == Filter(inventory[offset..], matches) && |page.evidence| <= limit
       case Some(next) =>
         && offset < next < |inventory| && matches(inventory[next]) && |page.evidence| == limit
         && page.evidence == Filter(inventory[offset..next], matches)
  }

  lemma FilterNext<T>(inventory: seq<T>, matches: T -> bool, offset: nat, i: nat)
    requires offset <= i < |inventory|
    ensures Filter(inventory[offset..i + 1], matches)
         == Filter(inventory[offset..i], matches) + if matches(inventory[i]) then [inventory[i]] else []
  {
    assert inventory[offset..i + 1] == inventory[offset..i] + [inventory[i]];
    FilterJoin(inventory[offset..i], [inventory[i]], matches);
    assert [inventory[i]][1..] == [];
  }

  /** The loop of query. */
  method QueryPage<T>(inventory: seq<T>, matches: T -> bool, limit: nat, offset: nat) returns (page: Page<T>)
    requires 1 <= limit <= 200 && offset <= |inventory|
    ensures IsPage(inventory, matches, limit, offset, page)
  {
    var found: seq<T> := [];
    for index := offset to |inventory|
      invariant found == Filter(inventory[offset..index], matches) && |found| <= limit
    {
      FilterNext(inventory, matches, offset, index);
      if matches(inventory[index]) {
        if |found| == limit {
          return Page(found, Some(index));
        }
        found := found + [inventory[index]];
      }
    }
    assert inventory[offset..|inventory|] == inventory[offset..];
    return Page(found, None);
  }

  /** Every page is the only one that fits its place. */
  lemma PageUnique<T>(inventory: seq<T>, matches: T -> bool, limit: nat, offset: nat, a: Page<T>, b: Page<T>)
    requires limit > 0 && IsPage(inventory, matches, limit, offset, a) && IsPage(inventory, matches, limit, offset, b)
    ensures a == b
  {
    var end := |inventory|;
    var i, j := if a.next.Some? then a.next.value else end, if b.next.Some? then b.next.value else end;
    assert inventory[offset..end] == inventory[offset..];
    if i < j {
      SamePlace(inventory, matches, offset, i, j);
    } else if j < i {
      SamePlace(inventory, matches, offset, j, i);
    }
  }

  /** A match at i lengthens every longer stretch. */
  lemma SamePlace<T>(inventory: seq<T>, matches: T -> bool, offset: nat, i: nat, j: nat)
    requires offset <= i < j <= |inventory| && matches(inventory[i])
    ensures |Filter(inventory[offset..j], matches)| > |Filter(inventory[offset..i], matches)|
  {
    assert inventory[offset..j] == inventory[offset..i] + inventory[i..j];
    FilterJoin(inventory[offset..i], inventory[i..j], matches);
    assert inventory[i..j][0] == inventory[i];
  }

  /** A page that starts at a match is not empty. */
  lemma StartsWithMatch<T>(inventory: seq<T>, matches: T -> bool, limit: nat, offset: nat, page: Page<T>)
    requires limit > 0 && IsPage(inventory, matches, limit, offset, page)
    requires offset < |inventory| && matches(inventory[offset])
    ensures page.evidence != []
  {
    if page.next.None? {
      assert inventory[offset..][0] == inventory[offset];
    }
  }

  /** What a page with a continuation adds to the matches in front of it. */
  lemma UpToNext<T>(inventory: seq<T>, matches: T -> bool, limit: nat, offset: nat, page: Page<T>)
    requires IsPage(inventory, matches, limit, offset, page)
    ensures page.next.Some? ==>
              Filter(inventory[..page.next.value], matches) == Filter(inventory[..offset], matches) + page.evidence
    ensures page.next.None? ==> Filter(inventory, matches) == Filter(inventory[..offset], matches) + page.evidence
  {
    hide Filter;
    if page.next.Some? {
      var next := page.next.value;
      assert inventory[..next] == inventory[..offset] + inventory[offset..next];
      FilterJoin(inventory[..offset], inventory[offset..next], matches);
    } else {
      assert inventory == inventory[..offset] + inventory[offset..];
      FilterJoin(inventory[..offset], inventory[offset..], matches);
    }
  }

  lemma Nothing<T>(inventory: seq<T>, matches: T -> bool)
    ensures Filter(inventory[..0], matches) == [] && Concatenated<T>([]) == []
  {
  }

  /** A bundle of the inventory: the digest it is named by, and its manifest. */
  datatype Bundle<T> = Bundle(id: string, manifest: T)

  /** Names are SHA-256 digests in hexadecimal. */
  predicate Named(ids: seq<string>) {
    forall id <- ids :: |id| == 64
  }

  function Ids<T>(inventory: seq<Bundle<T>>): (r: seq<string>)
    ensures |r| == |inventory| && forall i | 0 <= i < |r| :: r[i] == inventory[i].id
  {
    seq(|inventory|, i requires 0 <= i < |inventory| => inventory[i].id)
  }

  /** "\n".join(ids). */
  function Lines(ids: seq<string>): string {
    if ids == [] then "" else if |ids| == 1 then ids[0] else ids[0] + ("\n" + Lines(ids[1..]))
  }

  /** Names of one length can be told from their joined lines. */
  lemma {:induction false} LinesInjective(a: seq<string>, b: seq<string>)
    requires Named(a) && Named(b) && Lines(a) == Lines(b)
    ensures a == b
  {
    if a == [] || b == [] {
      LinesEmpty(a);
      LinesEmpty(b);
    } else {
      var n := |Lines(a)|;
      assert |a[0]| == 64 && |b[0]| == 64;
      assert a[0] == Lines(a)[..64] && b[0] == Lines(b)[..64];
      if |a| == 1 || |b| == 1 {
        assert n == 64;
        assert |a| == 1 && |b| == 1;
      } else {
        assert Lines(a[1..]) == Lines(a)[65..] && Lines(b[1..]) == Lines(b)[65..];
        Fewer(a);
        Fewer(b);
        LinesInjective(a[1..], b[1..]);
      }
      assert a == [a[0]] + a[1..] && b == [b[0]] + b[1..];
    }
  }

  lemma LinesEmpty(ids: seq<string>)
    requires Named(ids)
    ensures Lines(ids) == "" <==> ids == []
  {
    if ids != [] {
      assert |ids[0]| == 64;
    }
  }

  lemma Fewer(ids: seq<string>)
    requires Named(ids) && ids != []
    ensures Named(ids[1..])
  {
    forall id <- ids[1..]
      ensures id in ids
    {
    }
  }

  /** The filters of a query; None is no filter. */
  datatype Filters = Filters(
    kind: Option<string>,
    operation: Option<string>,
    provider: Option<string>,
    input: Option<string>,
    after: Option<string>,
    before: Option<string>)

  /** SHA-256 of a text, and of canonical JSON: injective by construction. */
  datatype Digest = OfText(text: string) | OfFilters(filters: Filters)

  /** What a cursor holds: digests of the inventory and of the filters, an offset. */
  datatype Cursor = Cursor(inventory: Digest, query: Digest, offset: nat)

  datatype CursorError = Stale | OtherFilters | Invalid | Beyond

  /** Canonical JSON of a cursor and json.loads with the checks on its members. */
  datatype Json = Json(write: Cursor -> Bytes, read: Bytes -> Option<Cursor>)

  ghost predicate Lossless(json: Json) {
    forall c: Cursor :: json.read(json.write(c)) == Some(c)
  }

  function EncodeCursor(json: Json, ids: seq<string>, filters: Filters, offset: nat): string {
    Base64Url.Strip(Base64Url.Encode(json.write(Cursor(OfText(Lines(ids)), OfFilters(filters), offset))))
  }

  function DecodeCursor(json: Json, cursor: Option<string>, ids: seq<string>, filters: Filters): Result<nat, CursorError> {
    match cursor
    case None => Ok(0)
    case Some(text) =>
      match Base64Url.Decode(Base64Url.Restore(text))
      case Err(_) => Err(Invalid)
      case Ok(bytes) =>
        match json.read(bytes)
        case None => Err(Invalid)
        case Some(c) =>
          if c.inventory != OfText(Lines(ids)) then Err(Stale)
          else if c.query != OfFilters(filters) then Err(OtherFilters)
          else Ok(c.offset)
  }

  /** A minted cursor gives its offset back to the same inventory and the same filters;
      any other inventory calls it stale, and any other filters foreign. */
  lemma CursorRoundTrip(json: Json, ids: seq<string>, filters: Filters, offset: nat, others: seq<string>, asked: Filters)
    requires Lossless(json) && Named(ids) && Named(others)
    ensures DecodeCursor(json, Some(EncodeCursor(json, ids, filters, offset)), others, asked) ==
            if ids != others then Err(Stale)
            else if filters != asked then Err(OtherFilters)
            else Ok(offset)
  {
    var c := Cursor(OfText(Lines(ids)), OfFilters(filters), offset);
    Base64Url.TokenRoundTrip(json.write(c));
    assert json.read(json.write(c)) == Some(c);
    if Lines(ids) == Lines(others) {
      LinesInjective(ids, others);
    }
  }

  datatype Reply<T> = Reply(evidence: seq<Bundle<T>>, continuation: Option<string>)

  /** What the filters ask of a bundle. */
  function Matching<T>(matches: (Filters, T) -> bool, filters: Filters): Bundle<T> -> bool {
    (b: Bundle<T>) => matches(filters, b.manifest)
  }

  /** A page as its caller gets it: the next offset is wrapped in a cursor. */
  function AsReply<T>(json: Json, ids: seq<string>, filters: Filters, page: Page<Bundle<T>>): Reply<T> {
    Reply(page.evidence, match page.next case None => None case Some(n) => Some(EncodeCursor(json, ids, filters, n)))
  }

  /** The reply for an offset: its page, with a cursor for the next offset. */
  ghost predicate IsReply<T(!new)>(json: Json, inventory: seq<Bundle<T>>, matches: (Filters, T) -> bool, filters: Filters,
                                   limit: nat, offset: nat, reply: Reply<T>)
  {
    exists page :: IsPage(inventory, Matching(matches, filters), limit, offset, page)
                   && reply == AsReply(json, Ids(inventory), filters, page)
  }

  /** query: the cursor decides where the page starts. */
  method Query<T(!new)>(json: Json, inventory: seq<Bundle<T>>, matches: (Filters, T) -> bool, filters: Filters, limit: nat,
                        cursor: Option<string>) returns (r: Result<Reply<T>, CursorError>)
    requires 1 <= limit <= 200
    ensures match DecodeCursor(json, cursor, Ids(inventory), filters)
            case Err(e) => r == Err(e)
            case Ok(offset) =>
              if cursor.Some? && offset >= |inventory| then r == Err(Beyond)
              else r.Ok? && IsReply(json, inventory, matches, filters, limit, offset, r.value)
  {
    hide IsPage;
    var at := DecodeCursor(json, cursor, Ids(inventory), filters);
    if at.Err? {
      return Err(at.error);
    }
    if cursor.Some? && at.value >= |inventory| {
      return Err(Beyond);
    }
    var page := QueryPage(inventory, Matching(matches, filters), limit, at.value);
    r := Ok(AsReply(json, Ids(inventory), filters, page));
  }

  /** A query has one answer. */
  lemma ReplyUnique<T(!new)>(json: Json, inventory: seq<Bundle<T>>, matches: (Filters, T) -> bool, filters: Filters,
                             limit: nat, offset: nat, a: Reply<T>, b: Reply<T>)
    requires limit > 0
    requires IsReply(json, inventory, matches, filters, limit, offset, a)
    requires IsReply(json, inventory, matches, filters, limit, offset, b)
    ensures a == b
  {
    hide IsPage;
    forall p, q |
      && IsPage(inventory, Matching(matches, filters), limit, offset, p)
      && IsPage(inventory, Matching(matches, filters), limit, offset, q)
      ensures p == q
    {
      PageUnique(inventory, Matching(matches, filters), limit, offset, p, q);
    }
  }

  /** Following the cursors from the first page on visits every match once, in order,
      no page but the first is empty, and the chain ends. */
  method AllPages<T(!new)>(json: Json, inventory: seq<Bundle<T>>, matches: (Filters, T) -> bool, filters: Filters, limit: nat)
    returns (full: seq<seq<Bundle<T>>>, last: seq<Bundle<T>>)
    requires 1 <= limit <= 200 && Lossless(json) && Named(Ids(inventory))
    ensures Concatenated(full + [last]) == Filter(inventory, Matching(matches, filters))
    ensures (forall page <- full :: |page| == limit) && |last| <= limit && (full != [] ==> last != [])
  {
    hide Filter, Concatenated, Matching, DecodeCursor, EncodeCursor, Named, Lossless;
    full := [];
    ghost var offset: nat := 0;
    FirstPlace(json, Ids(inventory), filters);
    var reply := Query(json, inventory, matches, filters, limit, None);
    ghost var page :| IsPage(inventory, Matching(matches, filters), limit, offset, page)
                      && reply.value == AsReply(json, Ids(inventory), filters, page);
    Nothing(inventory, Matching(matches, filters));
    while reply.value.continuation.Some?
      invariant reply == Ok(AsReply(json, Ids(inventory), filters, page))
      invariant IsPage(inventory, Matching(matches, filters), limit, offset, page)
      invariant Concatenated(full) == Filter(inventory[..offset], Matching(matches, filters))
      invariant (forall each <- full :: |each| == limit) && (full != [] ==> page.evidence != [])
      decreases |inventory| - offset
    {
      UpToNext(inventory, Matching(matches, filters), limit, offset, page);
      ConcatenatedMore(full, page.evidence);
      full := full + [reply.value.evidence];
      offset := page.next.value;
      CursorRoundTrip(json, Ids(inventory), filters, offset, Ids(inventory), filters);
      reply := Query(json, inventory, matches, filters, limit, reply.value.continuation);
      page :| IsPage(inventory, Matching(matches, filters), limit, offset, page)
              && reply.value == AsReply(json, Ids(inventory), filters, page);
      StartsWithMatch(inventory, Matching(matches, filters), limit, offset, page);
    }
    UpToNext(inventory, Matching(matches, filters), limit, offset, page);
    ConcatenatedMore(full, page.evidence);
    last := reply.value.evidence;
  }

  lemma FirstPlace(json: Json, ids: seq<string>, filters: Filters)
    ensures DecodeCursor(json, None, ids, filters) == Ok(0)
  {
  }
}
