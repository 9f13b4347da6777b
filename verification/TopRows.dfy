/**
 The merge of hotspot rows over several profiles: rows are sorted and cut after every
 profile, which gives what one stable sort of all rows, cut at the end, gives.
 */
module TopRows {
  import opened Decimals

  datatype Row = Row(selfValue: int, inclusiveValue: int, artifactId: string, frameId: string, rest: string)

  /** The sort key puts a in front of b: larger values first, then the identifiers. */
  predicate Below(a: Row, b: Row) {
    if a.selfValue != b.selfValue then a.selfValue > b.selfValue
    else if a.inclusiveValue != b.inclusiveValue then a.inclusiveValue > b.inclusiveValue
    else if a.artifactId != b.artifactId then Less(a.artifactId, b.artifactId)
    else Less(a.frameId, b.frameId)
  }

  predicate SameKey(a: Row, b: Row) {
    && a.selfValue == b.selfValue && a.inclusiveValue == b.inclusiveValue
    && a.artifactId == b.artifactId && a.frameId == b.frameId
  }

  /** The key is a total order on what it looks at. */
  lemma BelowOrder(a: Row, b: Row, c: Row)
    ensures Below(a, b) || Below(b, a) || SameKey(a, b)
    ensures !(Below(a, b) && Below(b, a)) && !Below(a, a)
    ensures Below(a, b) && Below(b, c) ==> Below(a, c)
    ensures SameKey(a, b) ==> (Below(a, c) <==> Below(b, c)) && (Below(c, a) <==> Below(c, b)) && !Below(a, b)
  {
    LessTotal(a.artifactId, b.artifactId);
    LessTotal(a.frameId, b.frameId);
    LessTotal(a.frameId, a.frameId);
    if Less(a.artifactId, b.artifactId) && Less(b.artifactId, c.artifactId) {
      LessTransitive(a.artifactId, b.artifactId, c.artifactId);
      LessTotal(a.artifactId, c.artifactId);
    }
    if Less(a.frameId, b.frameId) && Less(b.frameId, c.frameId) {
      LessTransitive(a.frameId, b.frameId, c.frameId);
    }
  }

  /** A row goes behind every row it is not below. */
  function Insert(row: Row, rows: seq<Row>): seq<Row> {
    if rows == [] then [row]
    else if Below(row, rows[0]) then [row] + rows
    else [rows[0]] + Insert(row, rows[1..])
  }

  function InsertAll(rows: seq<Row>, more: seq<Row>): seq<Row> {
    if more == [] then rows else Insert(more[|more| - 1], InsertAll(rows, more[..|more| - 1]))
  }

  /** Python's sort by the key. */
  function StableSort(rows: seq<Row>): seq<Row> {
    InsertAll([], rows)
  }

  predicate SortedRows(rows: seq<Row>) {
    forall i, j | 0 <= i < j < |rows| :: !Below(rows[j], rows[i])
  }

  lemma {:induction false} InsertSorted(row: Row, rows: seq<Row>)
    requires SortedRows(rows)
    ensures SortedRows(Insert(row, rows)) && multiset(Insert(row, rows)) == multiset(rows) + multiset{row}
  {
    hide Below;
    if rows != [] {
      var rest := rows[1..];
      assert rows == [rows[0]] + rest;
      if Below(row, rows[0]) {
        forall j | 0 <= j < |rows|
          ensures !Below(rows[j], row)
        {
          BelowOrder(rows[j], row, rows[0]);
          BelowOrder(rows[0], rows[0], rows[0]);
        }
      } else {
        InsertSorted(row, rest);
        BehindFirst(rows, row, Insert(row, rest));
      }
    }
  }

  lemma BehindFirst(rows: seq<Row>, row: Row, tail: seq<Row>)
    requires rows != [] && SortedRows(rows) && !Below(row, rows[0]) && SortedRows(tail)
    requires multiset(tail) == multiset(rows[1..]) + multiset{row}
    ensures SortedRows([rows[0]] + tail)
  {
    hide Below;
    forall j | 0 <= j < |tail|
      ensures !Below(tail[j], rows[0])
    {
      assert tail[j] in multiset(tail);
      if tail[j] != row {
        assert tail[j] in rows[1..];
      }
    }
  }

  lemma {:induction false} InsertAllSorted(rows: seq<Row>, more: seq<Row>)
    requires SortedRows(rows)
    ensures SortedRows(InsertAll(rows, more)) && multiset(InsertAll(rows, more)) == multiset(rows) + multiset(more)
    decreases |more|
  {
    if more != [] {
      var k := |more| - 1;
      assert more == more[..k] + [more[k]];
      InsertAllSorted(rows, more[..k]);
      InsertSorted(more[k], InsertAll(rows, more[..k]));
    }
  }

  /** The rows with the key of another, in order. */
  function WithKey(rows: seq<Row>, key: Row): seq<Row> {
    if rows == [] then [] else (if SameKey(rows[0], key) then [rows[0]] else []) + WithKey(rows[1..], key)
  }

  lemma {:induction false} WithKeyJoin(a: seq<Row>, b: seq<Row>, key: Row)
    ensures WithKey(a + b, key) == WithKey(a, key) + WithKey(b, key)
  {
    hide SameKey;
    if a == [] {
      assert a + b == b;
    } else {
      WithKeyJoin(a[1..], b, key);
      assert (a + b)[1..] == a[1..] + b && (a + b)[0] == a[0];
      var first := if SameKey(a[0], key) then [a[0]] else [];
      assert first + (WithKey(a[1..], key) + WithKey(b, key)) == (first + WithKey(a[1..], key)) + WithKey(b, key);
    }
  }

  lemma {:induction false} NoneWithKey(rows: seq<Row>, key: Row)
    requires forall i | 0 <= i < |rows| :: Below(key, rows[i])
    ensures WithKey(rows, key) == []
  {
    hide Below;
    if rows != [] {
      BelowOrder(rows[0], key, key);
      NoneWithKey(rows[1..], key);
    }
  }

  /** A row below the first of sorted rows shares its key with none of them. */
  lemma InFrontOfAll(row: Row, rows: seq<Row>, key: Row)
    requires SortedRows(rows) && rows != [] && Below(row, rows[0]) && SameKey(row, key)
    ensures WithKey(rows, key) == []
  {
    hide Below, SameKey;
    forall j | 0 <= j < |rows|
      ensures Below(key, rows[j])
    {
      BelowOrder(row, key, rows[j]);
      BelowOrder(row, rows[0], rows[j]);
      BelowOrder(row, rows[j], rows[0]);
      BelowOrder(rows[j], row, rows[0]);
      BelowOrder(rows[j], rows[0], row);
    }
    NoneWithKey(rows, key);
  }

  lemma {:induction false} InsertStable(row: Row, rows: seq<Row>, key: Row)
    requires SortedRows(rows)
    ensures WithKey(Insert(row, rows), key) == WithKey(rows, key) + WithKey([row], key)
  {
    hide Below, SameKey;
    if rows == [] {
    } else if Below(row, rows[0]) {
      if SameKey(row, key) {
        InFrontOfAll(row, rows, key);
      }
      WithKeyJoin([row], rows, key);
      assert WithKey([row], key) == if SameKey(row, key) then [row] else [];
    } else {
      InsertStable(row, rows[1..], key);
      WithKeyJoin([rows[0]], Insert(row, rows[1..]), key);
      WithKeyJoin([rows[0]], rows[1..], key);
      assert rows == [rows[0]] + rows[1..];
    }
  }

  /** The sort orders the rows, keeps each of them, and keeps rows of one key in the
      order they came in. */
  lemma {:induction false} StableSortIs(rows: seq<Row>, key: Row)
    ensures SortedRows(StableSort(rows)) && multiset(StableSort(rows)) == multiset(rows)
    ensures WithKey(StableSort(rows), key) == WithKey(rows, key)
    decreases |rows|
  {
    InsertAllSorted([], rows);
    if rows != [] {
      var k := |rows| - 1;
      assert rows == rows[..k] + [rows[k]];
      StableSortIs(rows[..k], key);
      InsertStable(rows[k], StableSort(rows[..k]), key);
      WithKeyJoin(rows[..k], [rows[k]], key);
    }
  }

  lemma {:induction false} InsertAllJoin(rows: seq<Row>, a: seq<Row>, b: seq<Row>)
    ensures InsertAll(rows, a + b) == InsertAll(InsertAll(rows, a), b)
    decreases |b|
  {
    if b == [] {
      assert a + b == a;
    } else {
      var k := |b| - 1;
      InsertAllJoin(rows, a, b[..k]);
      assert (a + b)[..|a + b| - 1] == a + b[..k];
    }
  }

  /** A row that is below none goes last. */
  lemma {:induction false} InsertLast(row: Row, rows: seq<Row>)
    requires forall i | 0 <= i < |rows| :: !Below(row, rows[i])
    ensures Insert(row, rows) == rows + [row]
  {
    if rows != [] {
      InsertLast(row, rows[1..]);
    }
  }

  lemma {:induction false} SortSorted(rows: seq<Row>)
    requires SortedRows(rows)
    ensures StableSort(rows) == rows
    decreases |rows|
  {
    if rows != [] {
      var k := |rows| - 1;
      SortSorted(rows[..k]);
      InsertLast(rows[k], rows[..k]);
      assert rows == rows[..k] + [rows[k]];
    }
  }

  function Cut(rows: seq<Row>, n: nat): seq<Row> {
    if |rows| <= n then rows else rows[..n]
  }

  lemma {:induction false} InsertLength(row: Row, rows: seq<Row>)
    ensures |Insert(row, rows)| == |rows| + 1
  {
    if rows != [] {
      InsertLength(row, rows[1..]);
    }
  }

  /** Rows that were cut off do not come back. */
  lemma {:induction false} InsertCut(row: Row, rows: seq<Row>, n: nat)
    ensures Cut(Insert(row, Cut(rows, n)), n) == Cut(Insert(row, rows), n)
  {
    hide Below;
    InsertLength(row, rows);
    InsertLength(row, Cut(rows, n));
    if rows != [] && n > 0 && !Below(row, rows[0]) {
      var rest := rows[1..];
      InsertCut(row, rest, n - 1);
      InsertLength(row, rest);
      InsertLength(row, Cut(rest, n - 1));
      assert Cut(rows, n) == [rows[0]] + Cut(rest, n - 1);
      assert Cut(rows, n)[1..] == Cut(rest, n - 1);
    }
  }

  lemma {:induction false} InsertAllCut(rows: seq<Row>, more: seq<Row>, n: nat)
    ensures Cut(InsertAll(Cut(rows, n), more), n) == Cut(InsertAll(rows, more), n)
    decreases |more|
  {
    if more == [] {
    } else {
      hide Insert, Cut;
      var k := |more| - 1;
      InsertAllCut(rows, more[..k], n);
      InsertCut(more[k], InsertAll(Cut(rows, n), more[..k]), n);
      InsertCut(more[k], InsertAll(rows, more[..k]), n);
    }
  }

  datatype Analysis = Analysis(rows: seq<Row>, observed: nat, complete: bool, metrics: map<string, int>)

  function AllRows(analyses: seq<Analysis>): seq<Row> {
    if analyses == [] then [] else AllRows(analyses[..|analyses| - 1]) + analyses[|analyses| - 1].rows
  }

  function Observed(analyses: seq<Analysis>): nat {
    if analyses == [] then 0 else Observed(analyses[..|analyses| - 1]) + analyses[|analyses| - 1].observed
  }

  function MetricOf(metrics: map<string, int>, name: string): int {
    if name in metrics then metrics[name] else 0
  }

  /** What a metric adds up to over all profiles. */
  function MetricSum(analyses: seq<Analysis>, name: string): int {
    if analyses == [] then 0
    else MetricSum(analyses[..|analyses| - 1], name) + MetricOf(analyses[|analyses| - 1].metrics, name)
  }

  datatype Merged = Merged(rows: seq<Row>, observed: nat, complete: bool, metrics: map<string, int>)

  /** The loop over one profile's metrics. */
  method AddMetrics(metrics: map<string, int>, more: map<string, int>) returns (sums: map<string, int>)
    ensures forall name: string :: MetricOf(sums, name) == MetricOf(metrics, name) + MetricOf(more, name)
  {
    sums := metrics;
    var rest := more.Keys;
    while rest != {}
      invariant rest <= more.Keys
      invariant forall name: string ::
                  MetricOf(sums, name) == MetricOf(metrics, name) + if name in rest then 0 else MetricOf(more, name)
      decreases |rest|
    {
      var name :| name in rest;
      sums := sums[name := MetricOf(sums, name) + more[name]];
      rest := rest - {name};
    }
  }

  /** rows.extend, rows.sort and del rows[max_rows:] for one profile. */
  lemma OneProfile(before: seq<Row>, rows: seq<Row>, more: seq<Row>, n: nat)
    requires rows == Cut(StableSort(before), n)
    ensures Cut(StableSort(rows + more), n) == Cut(StableSort(before + more), n)
  {
    InsertAllSorted([], before);
    SortSorted(rows);
    InsertAllJoin([], rows, more);
    InsertAllJoin([], before, more);
    InsertAllCut(StableSort(before), more, n);
  }

  lemma {:induction false} SortLength(rows: seq<Row>)
    ensures |StableSort(rows)| == |rows|
    decreases |rows|
  {
    if rows != [] {
      SortLength(rows[..|rows| - 1]);
      InsertLength(rows[|rows| - 1], StableSort(rows[..|rows| - 1]));
    }
  }

  /** The merge over all profiles. */
  method Merge(analyses: seq<Analysis>, maxRows: nat) returns (r: Merged)
    ensures r.rows == Cut(StableSort(AllRows(analyses)), maxRows)
    ensures r.complete <==> (forall a <- analyses :: a.complete) && |AllRows(analyses)| <= maxRows
    ensures forall i, j | 0 <= i < j < |r.rows| :: Ranked(r.rows[i], r.rows[j])
    ensures r.observed == Observed(analyses)
    ensures forall name: string ::
              MetricOf(r.metrics, name) == MetricSum(analyses, name) + if name == "profile_count" then |analyses| else 0
  {
    hide StableSort;
    var rows: seq<Row> := [];
    var observed: nat, complete := 0, true;
    var metrics: map<string, int> := map["profile_count" := |analyses|];
    assert analyses[..0] == [];
    assert StableSort([]) == [] by {
      NoRows();
    }
    for i := 0 to |analyses|
      invariant rows == Cut(StableSort(AllRows(analyses[..i])), maxRows)
      invariant complete <==> (forall j | 0 <= j < i :: analyses[j].complete) && |AllRows(analyses[..i])| <= maxRows
      invariant observed == Observed(analyses[..i])
      invariant forall name: string ::
                  MetricOf(metrics, name) == MetricSum(analyses[..i], name) + if name == "profile_count" then |analyses| else 0
    {
      var analysis := analyses[i];
      assert analyses[..i + 1][..i] == analyses[..i];
      ghost var before := AllRows(analyses[..i]);
      assert AllRows(analyses[..i + 1]) == before + analysis.rows;
      metrics := AddMetrics(metrics, analysis.metrics);
      OneProfile(before, rows, analysis.rows, maxRows);
      SortLength(before);
      SortLength(rows + analysis.rows);
      rows := StableSort(rows + analysis.rows);
      complete := complete && analysis.complete && |rows| <= maxRows;
      rows := Cut(rows, maxRows);
      observed := observed + analysis.observed;
    }
    assert analyses[..|analyses|] == analyses;
    InRank(AllRows(analyses), maxRows);
    r := Merged(rows, observed, complete, metrics);
  }

  /** How rows stand in a ranking: values do not increase, and the identifiers of rows
      with equal values do not decrease. */
  predicate Ranked(a: Row, b: Row) {
    && a.selfValue >= b.selfValue
    && (a.selfValue == b.selfValue ==>
          && a.inclusiveValue >= b.inclusiveValue
          && (a.inclusiveValue == b.inclusiveValue ==>
                && !Less(b.artifactId, a.artifactId)
                && (a.artifactId == b.artifactId ==> !Less(b.frameId, a.frameId))))
  }

  /** The rows that are left stand in their ranking. */
  lemma InRank(rows: seq<Row>, n: nat)
    ensures var left := Cut(StableSort(rows), n); forall i, j | 0 <= i < j < |left| :: Ranked(left[i], left[j])
  {
    InsertAllSorted([], rows);
    hide Less;
    var left := Cut(StableSort(rows), n);
    forall i, j | 0 <= i < j < |left|
      ensures Ranked(left[i], left[j])
    {
      assert !Below(left[j], left[i]);
      LessTotal(left[i].artifactId, left[j].artifactId);
    }
  }

  lemma NoRows()
    ensures StableSort([]) == []
  {
  }
}
