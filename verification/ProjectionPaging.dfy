/**
 Paging through analysis rows: the bounded cache of provider projections, the loop
 that reads preview rows, and the chains of continuations over both.
 */
module ProjectionPaging {
  import opened Results
  import opened Pages
  import Base64Url

  type Bytes = seq<Base64Url.Byte>

  const MAX_PROJECTIONS: nat := 16
  const MAX_PROJECTION_BYTES: nat := 16 * 1024 * 1024
  const MAX_ROWS: nat := 1000

  type Row = string

  /** What a provider found, up to the row limit that every page shares. */
  datatype Projection = Projection(rows: seq<Row>, observed: nat, complete: bool)

  /** What identifies an analysis request: its operation, its inputs, its row limit,
      and its other arguments and limits. */
  datatype Identity = Identity(operation: string, inputs: seq<Input>, limit: nat, rest: string)

  datatype Input = Input(path: string, role: string, sha256: string, rest: string)

  /** A cached projection; its key is the digest of the identity. */
  datatype Entry = Entry(key: Identity, value: Projection, size: nat)

  /** The provider is deterministic in the identity, which covers the digests of the
      inputs; size is the length of the canonical bytes. */
  datatype Provider = Provider(project: Identity -> Projection, size: Projection -> nat)

  function Weight(entries: seq<Entry>): nat {
    if entries == [] then 0 else entries[0].size + Weight(entries[1..])
  }

  predicate Bounded(entries: seq<Entry>) {
    |entries| <= MAX_PROJECTIONS && Weight(entries) <= MAX_PROJECTION_BYTES
  }

  ghost predicate DistinctKeys(entries: seq<Entry>) {
    forall i, j | 0 <= i < j < |entries| :: entries[i].key != entries[j].key
  }

  /** Every entry is what its provider would answer anew. */
  ghost predicate Faithful(provider: Provider, entries: seq<Entry>) {
    forall e <- entries :: e.value == provider.project(e.key) && e.size == provider.size(e.value)
  }

  function Others(entries: seq<Entry>, key: Identity): seq<Entry> {
    if entries == [] then []
    else (if entries[0].key == key then [] else [entries[0]]) + Others(entries[1..], key)
  }

  lemma {:induction false} OthersOk(entries: seq<Entry>, key: Identity)
    requires DistinctKeys(entries)
    ensures DistinctKeys(Others(entries, key)) && Weight(Others(entries, key)) <= Weight(entries)
    ensures |Others(entries, key)| <= |entries|
    ensures forall e <- Others(entries, key) :: e in entries && e.key != key
  {
    if entries != [] {
      OthersOk(entries[1..], key);
      var rest := Others(entries[1..], key);
      forall j | 0 <= j < |rest|
        ensures rest[j].key != entries[0].key
      {
        assert rest[j] in entries[1..];
      }
      assert Others(entries, key) == if entries[0].key == key then rest else [entries[0]] + rest;
      forall e <- Others(entries, key)
        ensures e in entries && e.key != key
      {
        assert e in rest || e == entries[0];
      }
    }
  }

  lemma {:induction false} OthersWithout(entries: seq<Entry>, e: Entry)
    requires DistinctKeys(entries) && e in entries
    ensures Weight(Others(entries, e.key)) + e.size == Weight(entries) && |Others(entries, e.key)| == |entries| - 1
  {
    if entries[0] == e {
      AllOthers(entries[1..], e.key);
      assert Others(entries, e.key) == entries[1..];
    } else {
      var j :| 0 <= j < |entries| && entries[j] == e;
      assert entries[0].key != entries[j].key && entries[1..][j - 1] == e;
      OthersWithout(entries[1..], e);
      assert Others(entries, e.key) == [entries[0]] + Others(entries[1..], e.key);
    }
  }

  lemma {:induction false} AllOthers(entries: seq<Entry>, key: Identity)
    requires forall e <- entries :: e.key != key
    ensures Others(entries, key) == entries
  {
    if entries != [] {
      AllOthers(entries[1..], key);
    }
  }

  lemma {:induction false} BytesLast(entries: seq<Entry>, e: Entry)
    ensures Weight(entries + [e]) == Weight(entries) + e.size
  {
    if entries == [] {
      assert entries + [e] == [e];
    } else {
      BytesLast(entries[1..], e);
      assert (entries + [e])[1..] == entries[1..] + [e];
    }
  }

  /** An entry moved to the end of an ordered dictionary. */
  function Touched(entries: seq<Entry>, e: Entry): seq<Entry> {
    Others(entries, e.key) + [e]
  }

  lemma TouchedOk(entries: seq<Entry>, e: Entry)
    requires DistinctKeys(entries)
    ensures DistinctKeys(Touched(entries, e))
    ensures e in entries && Bounded(entries) ==> Bounded(Touched(entries, e))
    ensures Weight([e]) == e.size
  {
    OthersOk(entries, e.key);
    var others := Others(entries, e.key);
    BytesLast(others, e);
    BytesLast([], e);
    assert [] + [e] == [e];
    forall j | 0 <= j < |others|
      ensures others[j].key != e.key
    {
      assert others[j] in others;
    }
    if e in entries {
      OthersWithout(entries, e);
    }
  }

  /** The newest projection is kept with as many of the most recently used others as
      the bounds allow; one too large by itself is not cached. */
  ghost predicate Admitted(provider: Provider, before: seq<Entry>, after: seq<Entry>, key: Identity) {
    var value := provider.project(key);
    var all := Touched(before, Entry(key, value, provider.size(value)));
    if provider.size(value) > MAX_PROJECTION_BYTES then after == before
    else
      && after != [] && after[|after| - 1].key == key
      && exists k: nat :: LongestBounded(all, k) && after == all[k..]
  }

  /** What one use of a projection does to the cache: a hit is touched, a miss admitted. */
  ghost predicate Used(provider: Provider, before: seq<Entry>, after: seq<Entry>, key: Identity) {
    if exists e <- before :: e.key == key then exists e <- before :: e.key == key && after == Touched(before, e)
    else Admitted(provider, before, after, key)
  }

  class ProjectionCache {
    const provider: Provider
    var entries: seq<Entry>

    ghost predicate Valid()
      reads this
    {
      DistinctKeys(entries) && Bounded(entries) && Faithful(provider, entries)
    }

    constructor (provider: Provider)
      ensures Valid() && this.provider == provider && entries == []
    {
      this.provider := provider;
      entries := [];
    }

    /** A hit becomes the most recently used entry. */
    method CachedProjection(key: Identity) returns (r: Option<Projection>)
      requires Valid()
      modifies this`entries
      ensures Valid()
      ensures r.None? ==> entries == old(entries) && forall e <- entries :: e.key != key
      ensures r.Some? ==> r.value == provider.project(key) && entries != [] && entries[|entries| - 1].key == key
      ensures r.Some? ==> exists e <- old(entries) :: e.key == key && entries == Touched(old(entries), e)
    {
      var i := 0;
      while i < |entries|
        invariant i <= |entries| && entries == old(entries)
        invariant forall j | 0 <= j < i :: entries[j].key != key
      {
        if entries[i].key == key {
          var e := entries[i];
          TouchedOk(entries, e);
          OthersOk(entries, key);
          entries := Touched(entries, e);
          return Some(e.value);
        }
        i := i + 1;
      }
      return None;
    }

    /** _cache_projection. */
    method CacheProjection(key: Identity)
      requires Valid()
      modifies this`entries
      ensures Valid() && Admitted(provider, old(entries), entries, key)
    {
      var value := provider.project(key);
      var size := provider.size(value);
      if size > MAX_PROJECTION_BYTES {
        return;
      }
      var e := Entry(key, value, size);
      ghost var all := Touched(entries, e);
      TouchedOk(entries, e);
      OthersOk(entries, key);
      hide Others, Touched;
      entries := Touched(entries, e);
      ghost var k: nat := 0;
      assert all[0..] == all;
      LastIs(old(entries), e);
      while |entries| > MAX_PROJECTIONS || Weight(entries) > MAX_PROJECTION_BYTES
        invariant k < |all| && entries == all[k..]
        invariant k > 0 ==> !Bounded(all[k - 1..])
        decreases |entries|
      {
        SuffixLast(all, k);
        entries := entries[1..];
        k := k + 1;
      }
      SuffixOk(provider, all, k);
      assert LongestBounded(all, k);
    }
  }

  lemma LastIs(entries: seq<Entry>, e: Entry)
    ensures var all := Touched(entries, e); all != [] && all[|all| - 1] == e && Weight([e]) == e.size
  {
    BytesLast([], e);
    assert [] + [e] == [e];
  }

  lemma SuffixLast(all: seq<Entry>, k: nat)
    requires k < |all| && Weight([all[|all| - 1]]) <= MAX_PROJECTION_BYTES && !Bounded(all[k..])
    ensures k + 1 < |all|
  {
    assert all[|all| - 1..] == [all[|all| - 1]];
  }

  lemma SuffixOk(provider: Provider, all: seq<Entry>, k: nat)
    requires k < |all| && DistinctKeys(all) && Faithful(provider, all)
    ensures DistinctKeys(all[k..]) && Faithful(provider, all[k..]) && all[k..][|all| - k - 1] == all[|all| - 1]
  {
    forall e <- all[k..]
      ensures e in all
    {
    }
  }

  /** The suffix from k on fits the bounds, and no longer one does. */
  ghost predicate LongestBounded(all: seq<Entry>, k: nat) {
    k < |all| && Bounded(all[k..]) && (k > 0 ==> !Bounded(all[k - 1..]))
  }

  function Min(a: nat, b: nat): nat { if a < b then a else b }

  /** A continuation ignores where its inputs lie and which role they play. */
  function Semantic(identity: Identity): (string, seq<(string, string)>, nat, string) {
    (identity.operation, Contents(identity.inputs), identity.limit, identity.rest)
  }

  function Contents(inputs: seq<Input>): (r: seq<(string, string)>)
    ensures |r| == |inputs| && forall i | 0 <= i < |inputs| :: r[i] == (inputs[i].sha256, inputs[i].rest)
  {
    seq(|inputs|, i requires 0 <= i < |inputs| => (inputs[i].sha256, inputs[i].rest))
  }

  /** SHA-256 of canonical JSON, injective by construction. */
  datatype Digest = OfRequest(semantic: (string, seq<(string, string)>, nat, string)) | OfPayload(request: Digest, offset: nat)

  /** The token behind its base64: a checksum over its payload. */
  datatype Token = Token(checksum: Digest, request: Digest, offset: int)

  /** Canonical JSON of a token, and json.loads with the checks on its members. */
  datatype Json = Json(write: Token -> Bytes, read: Bytes -> Option<Token>)

  ghost predicate Lossless(json: Json) {
    forall t: Token :: json.read(json.write(t)) == Some(t)
  }

  function Minted(identity: Identity, offset: nat): Token {
    var request := OfRequest(Semantic(identity));
    Token(OfPayload(request, offset), request, offset)
  }

  function EncodeContinuation(json: Json, identity: Identity, offset: nat): string {
    Base64Url.Strip(Base64Url.Encode(json.write(Minted(identity, offset))))
  }

  function DecodeContinuation(json: Json, token: Option<string>, identity: Identity, default: nat): Result<nat, string> {
    var refused := Err("Continuation does not match this request and its inputs");
    match token
    case None => Ok(default)
    case Some(text) =>
      match Base64Url.Decode(Base64Url.Restore(text))
      case Err(_) => refused
      case Ok(bytes) =>
        match json.read(bytes)
        case None => refused
        case Some(t) =>
          if t.offset < 0 || t.checksum != OfPayload(t.request, t.offset) || t.request != OfRequest(Semantic(identity)) then
            refused
          else
            var offset: nat := t.offset;
            Ok(offset)
  }

  /** Two requests share their continuations exactly when they agree on operation,
      arguments, limits and the contents of their inputs, in order. */
  predicate SameContents(a: Identity, b: Identity) {
    && a.operation == b.operation && a.rest == b.rest && a.limit == b.limit && |a.inputs| == |b.inputs|
    && forall i | 0 <= i < |a.inputs| ::
         a.inputs[i].sha256 == b.inputs[i].sha256 && a.inputs[i].rest == b.inputs[i].rest
  }

  lemma SameSemantic(a: Identity, b: Identity)
    ensures Semantic(a) == Semantic(b) <==> SameContents(a, b)
  {
    if SameContents(a, b) {
      assert Contents(a.inputs) == Contents(b.inputs);
    } else if Semantic(a) == Semantic(b) {
      forall i | 0 <= i < |a.inputs|
        ensures a.inputs[i].sha256 == b.inputs[i].sha256 && a.inputs[i].rest == b.inputs[i].rest
      {
        assert Contents(a.inputs)[i] == Contents(b.inputs)[i];
      }
      assert false;
    }
  }

  lemma ContinuationRoundTrip(json: Json, a: Identity, b: Identity, offset: nat, default: nat)
    requires Lossless(json)
    ensures DecodeContinuation(json, Some(EncodeContinuation(json, a, offset)), b, default).Ok? <==> SameContents(a, b)
    ensures SameContents(a, b) ==> DecodeContinuation(json, Some(EncodeContinuation(json, a, offset)), b, default) == Ok(offset)
  {
    Base64Url.TokenRoundTrip(json.write(Minted(a, offset)));
    assert json.read(json.write(Minted(a, offset))) == Some(Minted(a, offset));
    SameSemantic(a, b);
  }

  /** A page with what its coverage says. */
  datatype Reply = Reply(rows: seq<Row>, observed: nat, complete: bool, continuation: Option<string>)

  /** The answer at an offset: a slice of the projection, with a continuation if rows
      are left. */
  function AnswerAt(provider: Provider, json: Json, identity: Identity, offset: nat): Reply {
    var found := provider.project(identity);
    var rows := found.rows;
    if offset > |rows| then Reply([], found.observed, found.complete, None)
    else
      var end := Min(offset + identity.limit, |rows|);
      if end < |rows| then Reply(rows[offset..end], found.observed, false, Some(EncodeContinuation(json, identity, end)))
      else Reply(rows[offset..end], found.observed, found.complete, None)
  }

  /** Finished analyses, by identity and offset, and the projections behind them. */
  class Runtime {
    const json: Json
    const cache: ProjectionCache
    var finished: map<(Identity, nat), Reply>

    ghost predicate Valid()
      reads this, cache
    {
      cache.Valid() && forall key <- finished :: finished[key] == AnswerAt(cache.provider, json, key.0, key.1)
    }

    constructor (json: Json, provider: Provider)
      ensures Valid() && this.json == json && cache.provider == provider && fresh(cache)
    {
      this.json := json;
      cache := new ProjectionCache(provider);
      finished := map[];
    }

    /** One analysis call: a finished answer, or a slice of the projection, which comes
        from the cache or from the provider and is cached behind a miss. */
    method Analyze(identity: Identity, continuation: Option<string>, default: nat) returns (r: Result<Reply, string>)
      requires Valid() && 1 <= identity.limit <= MAX_ROWS
      modifies this`finished, cache`entries
      ensures Valid()
      ensures var at := DecodeContinuation(json, continuation, identity, default);
              match at
              case Err(e) => r == Err(e)
              case Ok(offset) =>
                var known := (identity, offset) in old(finished);
                && (r.Ok? <==> known || continuation.None? || offset < |cache.provider.project(identity).rows|)
                && (r.Ok? ==> r.value == AnswerAt(cache.provider, json, identity, offset))
                && finished == (if r.Ok? then old(finished)[(identity, offset) := r.value] else old(finished))
                && (if known then cache.entries == old(cache.entries)
                    else Used(cache.provider, old(cache.entries), cache.entries, identity))
      ensures DecodeContinuation(json, continuation, identity, default).Err? ==>
                finished == old(finished) && cache.entries == old(cache.entries)
    {
      hide DistinctKeys, Bounded, Faithful, DecodeContinuation, EncodeContinuation, Touched, AnswerAt, Admitted;
      var at := DecodeContinuation(json, continuation, identity, default);
      if at.Err? {
        return Err(at.error);
      }
      var offset := at.value;
      if (identity, offset) in finished {
        return Ok(finished[(identity, offset)]);
      }
      var cached := cache.CachedProjection(identity);
      var projection := if cached.Some? then cached.value else cache.provider.project(identity);
      if cached.None? {
        cache.CacheProjection(identity);
      }
      var rows := projection.rows;
      if continuation.Some? && offset >= |rows| {
        return Err("Continuation offset is beyond the available evidence");
      }
      AnswerIs(cache.provider, json, identity, offset);
      var page := if offset <= |rows| then rows[offset..Min(offset + identity.limit, |rows|)] else [];
      var next: nat := offset + |page|;
      var left := next < |rows|;
      var reply := Reply(page, projection.observed, projection.complete && !left,
                         if left then Some(EncodeContinuation(json, identity, next)) else None);
      finished := finished[(identity, offset) := reply];
      r := Ok(reply);
    }

    /** Finished analyses may be evicted at any time. */
    method Forget(keys: set<(Identity, nat)>)
      requires Valid()
      modifies this`finished
      ensures Valid() && finished == old(finished) - keys
    {
      finished := finished - keys;
    }

    /** Whatever else happens between two pages of one analysis. */
    method Interfere(others: seq<(Identity, nat)>, evicted: set<(Identity, nat)>)
      requires Valid()
      modifies this`finished, cache`entries
      ensures Valid()
    {
      for i := 0 to |others|
        invariant Valid()
      {
        if 1 <= others[i].0.limit <= MAX_ROWS {
          var _ := Analyze(others[i].0, None, others[i].1);
        }
      }
      Forget(evicted);
    }

    /** One call of which nothing but its page matters. */
    method PageAt(identity: Identity, continuation: Option<string>, ghost offset: nat) returns (reply: Reply)
      requires Valid() && 1 <= identity.limit <= MAX_ROWS && DecodeContinuation(json, continuation, identity, 0) == Ok(offset)
      requires continuation.None? || offset < |cache.provider.project(identity).rows|
      modifies this`finished, cache`entries
      ensures Valid() && reply == AnswerAt(cache.provider, json, identity, offset)
    {
      hide DecodeContinuation, AnswerAt, Used;
      var answer := Analyze(identity, continuation, 0);
      reply := answer.value;
    }

    /** Following the continuations of an analysis from its first page on gives every
        row of the projection once, in order, whatever other analyses hit, refill or
        evict in either cache between two pages. */
    method AllPages(identity: Identity, between: nat -> (seq<(Identity, nat)>, set<(Identity, nat)>))
      returns (pages: seq<seq<Row>>, complete: bool)
      requires Valid() && Lossless(json) && 1 <= identity.limit <= MAX_ROWS
      modifies this`finished, cache`entries
      ensures Valid() && Concatenated(pages) == cache.provider.project(identity).rows
      ensures complete == cache.provider.project(identity).complete
      ensures pages != [] && forall i | 0 <= i < |pages| - 1 :: |pages[i]| == identity.limit
      ensures |pages[|pages| - 1]| <= identity.limit && (|pages| > 1 ==> pages[|pages| - 1] != [])
    {
      hide Concatenated, DecodeContinuation, EncodeContinuation, Lossless, AnswerAt, SameContents;
      ghost var rows := cache.provider.project(identity).rows;
      ghost var offset: nat := 0;
      StartsAtDefault(json, identity);
      var answer := PageAt(identity, None, 0);
      pages := [answer.rows];
      PageEnds(cache.provider, json, identity, 0);
      OnePage(rows, identity.limit);
      while answer.continuation.Some?
        invariant Valid() && answer == AnswerAt(cache.provider, json, identity, offset) && offset <= |rows|
        invariant Concatenated(pages) == rows[..Min(offset + identity.limit, |rows|)]
        invariant (forall i | 0 <= i < |pages| - 1 :: |pages[i]| == identity.limit) && (|pages| > 1 ==> offset < |rows|)
        invariant pages != [] && pages[|pages| - 1] == answer.rows
        decreases |rows| - offset
      {
        PageEnds(cache.provider, json, identity, offset);
        var others, evicted := between(|pages|).0, between(|pages|).1;
        Interfere(others, evicted);
        offset := offset + identity.limit;
        Reflexive(identity);
        ContinuationRoundTrip(json, identity, identity, offset, 0);
        answer := PageAt(identity, answer.continuation, offset);
        PageEnds(cache.provider, json, identity, offset);
        ConcatenatedMore(pages, answer.rows);
        OnePageMore(rows, offset, identity.limit);
        pages := pages + [answer.rows];
      }
      PageEnds(cache.provider, json, identity, offset);
      complete := answer.complete;
      assert rows[..|rows|] == rows;
    }
  }

  lemma AnswerIs(provider: Provider, json: Json, identity: Identity, offset: nat)
    ensures var found := provider.project(identity);
            var rows := found.rows;
            var page := if offset <= |rows| then rows[offset..Min(offset + identity.limit, |rows|)] else [];
            var next: nat := offset + |page|;
            AnswerAt(provider, json, identity, offset)
            == Reply(page, found.observed, found.complete && next >= |rows|,
                     if next < |rows| then Some(EncodeContinuation(json, identity, next)) else None)
  {
    hide EncodeContinuation;
  }

  lemma StartsAtDefault(json: Json, identity: Identity)
    ensures DecodeContinuation(json, None, identity, 0) == Ok(0)
  {
  }

  lemma Reflexive(identity: Identity)
    ensures SameContents(identity, identity)
  {
  }

  lemma OnePageMore(rows: seq<Row>, offset: nat, limit: nat)
    requires offset <= |rows|
    ensures var end := Min(offset + limit, |rows|); rows[..end] == rows[..offset] + rows[offset..end]
  {
  }

  lemma OnePage(rows: seq<Row>, limit: nat)
    ensures Concatenated([rows[0..Min(limit, |rows|)]]) == rows[..Min(limit, |rows|)]
  {
    var page := rows[0..Min(limit, |rows|)];
    assert [page][1..] == [] && page + [] == page;
  }

  /** A page is full and has a continuation, or it is the last. */
  lemma PageEnds(provider: Provider, json: Json, identity: Identity, offset: nat)
    requires offset <= |provider.project(identity).rows|
    ensures var rows := provider.project(identity).rows;
            var end := Min(offset + identity.limit, |rows|);
            var reply := AnswerAt(provider, json, identity, offset);
            && reply.rows == rows[offset..end]
            && (reply.continuation.Some? <==> offset + identity.limit < |rows|)
            && (reply.complete <==> provider.project(identity).complete && reply.continuation.None?)
            && (reply.continuation.Some? ==> reply.continuation.value == EncodeContinuation(json, identity, end))
  {
  }

  /** One source of a preview: its digest and the rows read from it, in order. */
  datatype Source = Source(sha256: string, rows: seq<Row>)

  datatype Tagged = Tagged(row: Row, inputSha256: string)

  function TaggedRows(source: Source): (r: seq<Tagged>)
    ensures |r| == |source.rows|
  {
    seq(|source.rows|, i requires 0 <= i < |source.rows| => Tagged(source.rows[i], source.sha256))
  }

  /** The rows of all sources, one source behind the other. */
  function AllRows(sources: seq<Source>): seq<Tagged> {
    if sources == [] then [] else TaggedRows(sources[0]) + AllRows(sources[1..])
  }

  lemma {:induction false} AllRowsNext(sources: seq<Source>, i: nat)
    requires i < |sources|
    ensures AllRows(sources[..i + 1]) == AllRows(sources[..i]) + TaggedRows(sources[i])
    ensures AllRows(sources[..i + 1]) <= AllRows(sources)
  {
    hide TaggedRows;
    if i == 0 {
      assert sources[..1] == [sources[0]] && sources[..0] == [] && [sources[0]][1..] == [];
      assert AllRows(sources[..1]) == TaggedRows(sources[0]) + [];
    } else {
      AllRowsNext(sources[1..], i - 1);
      assert sources[..i + 1][1..] == sources[1..][..i] && sources[..i][1..] == sources[1..][..i - 1];
    }
  }

  /** The rows at and behind an offset, up to a limit. */
  function Window(rows: seq<Tagged>, offset: nat, limit: nat): seq<Tagged> {
    if offset >= |rows| then [] else rows[offset..Min(offset + limit, |rows|)]
  }

  lemma WindowNext(rows: seq<Tagged>, n: nat, offset: nat, limit: nat)
    requires n < |rows|
    ensures Window(rows[..n + 1], offset, limit)
         == Window(rows[..n], offset, limit) + if offset <= n < offset + limit then [rows[n]] else []
    ensures |Window(rows[..n], offset, limit)| < limit <==> n < offset + limit && limit > 0
  {
  }

  /** The rows of a source stand at a place among all rows. */
  ghost predicate StandAt(source: Source, all: seq<Tagged>, start: nat) {
    && start + |source.rows| <= |all|
    && forall j | 0 <= j < |source.rows| :: all[start + j] == Tagged(source.rows[j], source.sha256)
  }

  /** The inner loop of _read_rows. */
  method ReadSource(source: Source, offset: nat, limit: nat, before: seq<Tagged>, start: nat, ghost all: seq<Tagged>)
    returns (rows: seq<Tagged>, observed: nat, full: bool)
    requires limit > 0 && StandAt(source, all, start) && start <= offset + limit
    requires before == Window(all[..start], offset, limit)
    ensures observed <= |all| && rows == Window(all[..observed], offset, limit)
    ensures full ==> observed == offset + limit + 1
    ensures !full ==> observed == start + |source.rows| <= offset + limit
  {
    hide Window;
    rows, observed := before, start;
    for j := 0 to |source.rows|
      invariant observed == start + j <= |all| && observed <= offset + limit
      invariant rows == Window(all[..observed], offset, limit)
    {
      WindowNext(all, observed, offset, limit);
      if observed >= offset && |rows| < limit {
        rows := rows + [Tagged(source.rows[j], source.sha256)];
      }
      observed := observed + 1;
      if observed >= offset + limit + 1 {
        return rows, observed, true;
      }
    }
    full := false;
  }

  /** Where the rows of source i stand. */
  lemma SourceRows(sources: seq<Source>, i: nat)
    requires i < |sources|
    ensures var start := |AllRows(sources[..i])|;
            && start + |sources[i].rows| == |AllRows(sources[..i + 1])| <= |AllRows(sources)|
            && StandAt(sources[i], AllRows(sources), start)
  {
    hide AllRows;
    AllRowsNext(sources, i);
    forall j | 0 <= j < |sources[i].rows|
      ensures AllRows(sources)[|AllRows(sources[..i])| + j] == Tagged(sources[i].rows[j], sources[i].sha256)
    {
      RowAt(sources, i, j);
    }
  }

  /** The loop of _read_rows: it stops one row behind the page. */
  method ReadRows(sources: seq<Source>, offset: nat, limit: nat) returns (rows: seq<Tagged>, observed: nat, complete: bool)
    requires limit > 0
    ensures rows == Window(AllRows(sources), offset, limit)
    ensures observed == Min(|AllRows(sources)|, offset + limit + 1)
    ensures complete <==> |AllRows(sources)| <= offset + limit
  {
    ghost var all := AllRows(sources);
    rows, observed := [], 0;
    assert sources[..0] == [] && all[..0] == [];
    NoRows(sources, offset, limit);
    hide AllRows, TaggedRows, Window, StandAt;
    for i := 0 to |sources|
      invariant observed == |AllRows(sources[..i])| <= |all| && observed <= offset + limit
      invariant rows == Window(all[..observed], offset, limit)
    {
      AllRowsNext(sources, i);
      SourceRows(sources, i);
      var full: bool;
      rows, observed, full := ReadSource(sources[i], offset, limit, rows, observed, all);
      if full {
        SameWindow(all, observed, offset, limit);
        return rows, observed, false;
      }
    }
    assert sources[..|sources|] == sources;
    assert all[..observed] == all;
    complete := true;
  }

  lemma NoRows(sources: seq<Source>, offset: nat, limit: nat)
    ensures AllRows(sources[..0]) == [] && Window(AllRows(sources)[..0], offset, limit) == []
  {
  }

  lemma SameWindow(rows: seq<Tagged>, n: nat, offset: nat, limit: nat)
    requires offset + limit < n <= |rows|
    ensures Window(rows[..n], offset, limit) == Window(rows, offset, limit)
  {
  }

  lemma RowAt(sources: seq<Source>, i: nat, j: nat)
    requires i < |sources| && j < |sources[i].rows|
    ensures var n := |AllRows(sources[..i])| + j;
            n < |AllRows(sources)| && AllRows(sources)[n] == Tagged(sources[i].rows[j], sources[i].sha256)
  {
    AllRowsNext(sources, i);
    var n := |AllRows(sources[..i])| + j;
    assert AllRows(sources[..i + 1])[n] == TaggedRows(sources[i])[j];
  }

  lemma NoPages()
    ensures Concatenated<Tagged>([]) == []
  {
  }

  lemma OneWindowMore(all: seq<Tagged>, offset: nat, limit: nat)
    requires offset <= |all| && limit > 0
    ensures all[..offset] + Window(all, offset, limit) == all[..Min(offset + limit, |all|)] && all[..|all|] == all
    ensures |Window(all, offset, limit)| == Min(offset + limit, |all|) - offset
  {
  }

  /** The pages of a preview rebuild all rows of all sources. */
  method AllPreviewPages(sources: seq<Source>, limit: nat) returns (pages: seq<seq<Tagged>>)
    requires 1 <= limit <= MAX_ROWS
    ensures Concatenated(pages) == AllRows(sources)
    ensures forall page <- pages :: |page| <= limit
    ensures forall i | 0 < i < |pages| :: pages[i] != []
  {
    hide AllRows, Window, Concatenated;
    ghost var all := AllRows(sources);
    pages := [];
    NoPages();
    var offset: nat := 0;
    var complete := false;
    assert all[..0] == [];
    while !complete
      invariant !complete ==> offset <= |all| && Concatenated(pages) == all[..offset] && (pages != [] ==> offset < |all|)
      invariant complete ==> Concatenated(pages) == all
      invariant forall page <- pages :: |page| <= limit
      invariant forall i | 0 < i < |pages| :: pages[i] != []
      decreases !complete, |all| - offset
    {
      var page, _, done := ReadRows(sources, offset, limit);
      ConcatenatedMore(pages, page);
      OneWindowMore(all, offset, limit);
      pages := pages + [page];
      offset := offset + |page|;
      complete := done;
    }
  }
}
