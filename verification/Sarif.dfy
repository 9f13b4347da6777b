/**
 The streaming SARIF reader: one pass over located events, results deferred until
 their run has named its tool, and accounts that add up wherever the input ends.
 */
module Sarif {
  import opened Results
  import opened JsonEvents
  import opened Totals

  const MAX_DEFERRED: nat := 1000
  const MAX_ANALYZERS: nat := 16
  const MAX_ANALYZER_FIELD: nat := 256

  function At(name: string): Location { [Some(name)] }

  function RunPath(): Location { [Some("runs"), None] }

  function ResultsPath(): Location { [Some("runs"), None, Some("results")] }

  function ResultPath(): Location { [Some("runs"), None, Some("results"), None] }

  function NamePath(): Location { [Some("runs"), None, Some("tool"), Some("driver"), Some("name")] }

  function ToolVersionPath(): Location { [Some("runs"), None, Some("tool"), Some("driver"), Some("version")] }

  function ExitCodePath(): Location { [Some("runs"), None, Some("invocations"), None, Some("exitCode")] }

  /** A result object as it was read: its place, and the events inside it. */
  datatype Raw = Raw(run: nat, index: nat, seen: seq<Located>)

  /** What becomes of a result, decided from its events and the tool's name alone. */
  datatype Verdict = Candidate | Excluded | Invalid(reason: string)

  datatype Run = Run(resultCount: nat, name: Option<string>, pending: seq<Raw>, pendingOmitted: nat)

  /** A result that was judged, and the tool name it was judged under. */
  datatype Judged = Judged(raw: Raw, analyzer: string)

  type Classify = (Raw, string) -> Verdict

  function Candidates(classify: Classify, judged: seq<Judged>): seq<Raw> {
    if judged == [] then []
    else
      var last := judged[|judged| - 1];
      Candidates(classify, judged[..|judged| - 1])
      + if classify(last.raw, last.analyzer).Candidate? then [last.raw] else []
  }

  function ExcludedCount(classify: Classify, judged: seq<Judged>): nat {
    if judged == [] then 0
    else
      var last := judged[|judged| - 1];
      ExcludedCount(classify, judged[..|judged| - 1])
      + if classify(last.raw, last.analyzer).Excluded? then 1 else 0
  }

  function InvalidCount(classify: Classify, judged: seq<Judged>): nat {
    if judged == [] then 0
    else
      var last := judged[|judged| - 1];
      InvalidCount(classify, judged[..|judged| - 1])
      + if classify(last.raw, last.analyzer).Invalid? then 1 else 0
  }

  lemma JudgedMore(classify: Classify, judged: seq<Judged>, j: Judged)
    ensures Candidates(classify, judged + [j])
         == Candidates(classify, judged) + if classify(j.raw, j.analyzer).Candidate? then [j.raw] else []
    ensures ExcludedCount(classify, judged + [j])
         == ExcludedCount(classify, judged) + if classify(j.raw, j.analyzer).Excluded? then 1 else 0
    ensures InvalidCount(classify, judged + [j])
         == InvalidCount(classify, judged) + if classify(j.raw, j.analyzer).Invalid? then 1 else 0
  {
    assert (judged + [j])[..|judged|] == judged;
  }

  /** Every judged result is of exactly one kind. */
  lemma {:induction false} JudgedSplit(classify: Classify, judged: seq<Judged>)
    ensures |Candidates(classify, judged)| + ExcludedCount(classify, judged) + InvalidCount(classify, judged) == |judged|
  {
    if judged != [] {
      JudgedSplit(classify, judged[..|judged| - 1]);
    }
  }

  predicate Before(a: Raw, b: Raw) {
    a.run < b.run || (a.run == b.run && a.index < b.index)
  }

  /** In document order, each result once. */
  ghost predicate Ascending(raws: seq<Raw>) {
    forall i, j | 0 <= i < j < |raws| :: Before(raws[i], raws[j])
  }

  function Raws(judged: seq<Judged>): (r: seq<Raw>)
    ensures |r| == |judged| && forall i | 0 <= i < |r| :: r[i] == judged[i].raw
  {
    seq(|judged|, i requires 0 <= i < |judged| => judged[i].raw)
  }

  /** The candidates keep the order of the judged results. */
  lemma {:induction false} CandidatesAscend(classify: Classify, judged: seq<Judged>)
    requires Ascending(Raws(judged))
    ensures Ascending(Candidates(classify, judged))
    ensures forall c <- Candidates(classify, judged) :: c in Raws(judged)
  {
    if judged != [] {
      var k := |judged| - 1;
      var front := judged[..k];
      assert Raws(front) == Raws(judged)[..k];
      CandidatesAscend(classify, front);
      var cs := Candidates(classify, front);
      forall i | 0 <= i < |cs|
        ensures Before(cs[i], judged[k].raw)
      {
        assert cs[i] in Raws(front);
        var j :| 0 <= j < k && Raws(front)[j] == cs[i];
        assert Raws(judged)[j] == cs[i] && Raws(judged)[k] == judged[k].raw;
      }
    }
  }

  function Min(a: nat, b: nat): nat { if a < b then a else b }

  /** The accounts over the results judged so far and those given up otherwise. */
  datatype Accounts = Accounts(
    candidates: seq<Raw>, excluded: nat, invalid: nat, omitted: nat, deferredOmitted: nat, reasons: map<string, nat>)

  const NO_ACCOUNTS: Accounts := Accounts([], 0, 0, 0, 0, map[])

  /** The accounts say what they should of the judged results; lost counts the results
      given up without judgement. */
  ghost predicate Balanced(classify: Classify, max: nat, a: Accounts, judged: seq<Judged>, lost: nat) {
    var all := Candidates(classify, judged);
    && a.candidates == all[..Min(max, |all|)] && a.omitted == |all| - |a.candidates|
    && a.excluded == ExcludedCount(classify, judged)
    && a.invalid == InvalidCount(classify, judged) + lost && a.invalid == Total(a.reasons)
  }

  function WithReason(reasons: map<string, nat>, reason: string, n: nat): map<string, nat> {
    reasons[reason := (if reason in reasons then reasons[reason] else 0) + n]
  }

  lemma ReasonAdds(reasons: map<string, nat>, reason: string, n: nat)
    ensures Total(WithReason(reasons, reason, n)) == Total(reasons) + n
  {
    TotalPut(reasons, reason, (if reason in reasons then reasons[reason] else 0) + n);
  }

  const UNFINISHED := "the result did not finish before parsing stopped"
  const NO_RUN := "the result has no SARIF run identity"
  const NO_DRIVER := "the run has no SARIF tool driver identity"

  /** _Normalization: the counters, with the history they account for. */
  class Normalization {
    const classify: Classify
    const maximum: nat
    var candidates: seq<Raw>
    var excludedCount: nat
    var invalidCount: nat
    var omittedCount: nat
    var deferredOmittedCount: nat
    var invalidReasons: map<string, nat>
    ghost var judged: seq<Judged>
    ghost var lost: nat

    ghost function Held(): Accounts
      reads this
    {
      Accounts(candidates, excludedCount, invalidCount, omittedCount, deferredOmittedCount, invalidReasons)
    }

    ghost predicate Valid()
      reads this
    {
      Balanced(classify, maximum, Held(), judged, lost)
    }

    lemma Facts()
      requires Valid()
      ensures Balanced(classify, maximum, Held(), judged, lost)
      ensures Held() == Accounts(candidates, excludedCount, invalidCount, omittedCount, deferredOmittedCount, invalidReasons)
    {
    }

    constructor (classify: Classify, maximum: nat)
      ensures Valid() && this.classify == classify && this.maximum == maximum
      ensures judged == [] && lost == 0 && deferredOmittedCount == 0
    {
      this.classify, this.maximum := classify, maximum;
      candidates, excludedCount, invalidCount, omittedCount, deferredOmittedCount := [], 0, 0, 0, 0;
      invalidReasons, judged, lost := map[], [], 0;
    }

    /** A result is judged: kept, excluded, invalid, or omitted over the maximum. */
    method Add(raw: Raw, analyzer: string)
      requires Valid()
      modifies this
      ensures Valid() && judged == old(judged) + [Judged(raw, analyzer)]
      ensures lost == old(lost) && deferredOmittedCount == old(deferredOmittedCount)
    {
      hide Candidates, ExcludedCount, InvalidCount, Total;
      JudgedMore(classify, judged, Judged(raw, analyzer));
      match classify(raw, analyzer) {
        case Excluded => excludedCount := excludedCount + 1;
        case Invalid(reason) =>
          ReasonAdds(invalidReasons, reason, 1);
          invalidCount := invalidCount + 1;
          invalidReasons := WithReason(invalidReasons, reason, 1);
        case Candidate =>
          if |candidates| >= maximum {
            omittedCount := omittedCount + 1;
          } else {
            candidates := candidates + [raw];
          }
      }
      judged := judged + [Judged(raw, analyzer)];
    }

    /** So many results are given up for a reason of their own. */
    method Lose(reason: string, n: nat)
      requires Valid()
      modifies this`invalidCount, this`invalidReasons, this`lost
      ensures Valid() && lost == old(lost) + n
    {
      hide Candidates, ExcludedCount, InvalidCount, Total;
      ReasonAdds(invalidReasons, reason, n);
      invalidCount := invalidCount + n;
      invalidReasons := WithReason(invalidReasons, reason, n);
      lost := lost + n;
    }

    /** The pending results of a run are judged under its name, in order. */
    method Flush(run: Run, name: string)
      requires Valid()
      modifies this
      ensures Valid() && judged == old(judged) + JudgedAll(run.pending, name)
      ensures lost == old(lost) && deferredOmittedCount == old(deferredOmittedCount) + run.pendingOmitted
    {
      assert run.pending[..0] == [];
      for i := 0 to |run.pending|
        invariant Valid() && judged == old(judged) + JudgedAll(run.pending[..i], name)
        invariant lost == old(lost) && deferredOmittedCount == old(deferredOmittedCount)
      {
        assert run.pending[..i + 1] == run.pending[..i] + [run.pending[i]];
        assert JudgedAll(run.pending[..i + 1], name) == JudgedAll(run.pending[..i], name) + [Judged(run.pending[i], name)];
        Add(run.pending[i], name);
      }
      assert run.pending[..|run.pending|] == run.pending;
      deferredOmittedCount := deferredOmittedCount + run.pendingOmitted;
    }

    /** The end of a run: judged under its name, or given up without one. */
    method FinishRun(run: Run)
      requires Valid()
      modifies this
      ensures Valid()
      ensures run.name.Some? ==>
                && judged == old(judged) + JudgedAll(run.pending, run.name.value) && lost == old(lost)
                && deferredOmittedCount == old(deferredOmittedCount) + run.pendingOmitted
      ensures run.name.None? ==>
                && judged == old(judged) && lost == old(lost) + |run.pending| + run.pendingOmitted
                && deferredOmittedCount == old(deferredOmittedCount)
    {
      if run.name.Some? {
        Flush(run, run.name.value);
        return;
      }
      for i := 0 to |run.pending|
        invariant Valid() && judged == old(judged) && lost == old(lost) + i
        invariant deferredOmittedCount == old(deferredOmittedCount)
      {
        Lose(NO_DRIVER, 1);
      }
      if run.pendingOmitted > 0 {
        Lose(NO_DRIVER, run.pendingOmitted);
      }
    }
  }

  function JudgedAll(raws: seq<Raw>, name: string): (r: seq<Judged>)
    ensures |r| == |raws| && forall i | 0 <= i < |r| :: r[i] == Judged(raws[i], name)
  {
    seq(|raws|, i requires 0 <= i < |raws| => Judged(raws[i], name))
  }
}
