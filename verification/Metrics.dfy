/** Acceptance-criteria coverage and the health score built on it
    (apps/vscode-extension/src/extension/filesystem/AcceptanceCoverageAnalyzer.ts and MetricsCalculator.ts). */
module Metrics {
  import opened Option
  import Arithmetic
  import TestResults

  datatype SpecStatus = Complete | Partial | Missing

  datatype Feature = Feature(name: string, status: SpecStatus, deprecated: bool, acIds: seq<string>, specMtime: real)

  datatype Snapshot = Snapshot(path: string, describeBlocks: seq<string>, acIds: seq<string>, mtime: real)

  /** How a test file is related to a feature: by its name, or by the title of a describe block. */
  datatype Matcher = Matcher(byFile: (Snapshot, string) -> bool, byTitle: (Snapshot, string) -> bool)

  function Keep(snapshots: seq<Snapshot>, name: string, p: (Snapshot, string) -> bool): seq<Snapshot> {
    if snapshots == [] then []
    else (if p(snapshots[0], name) then [snapshots[0]] else []) + Keep(snapshots[1..], name, p)
  }

  /** relatedTests: the files named after the feature, or else those with a matching describe block. */
  function Related(m: Matcher, snapshots: seq<Snapshot>, name: string): seq<Snapshot> {
    var byFile := Keep(snapshots, name, m.byFile);
    if byFile != [] then byFile else Keep(snapshots, name, m.byTitle)
  }

  function Ids(acIds: seq<string>): set<string> {
    set x | x in acIds
  }

  function AllIds(snapshots: seq<Snapshot>): set<string> {
    if snapshots == [] then {} else AllIds(snapshots[..|snapshots| - 1]) + Ids(snapshots[|snapshots| - 1].acIds)
  }

  /** Math.max over a non-empty list. */
  function Newest(snapshots: seq<Snapshot>): (r: real)
    requires snapshots != []
    ensures exists i :: 0 <= i < |snapshots| && snapshots[i].mtime == r
    ensures forall i :: 0 <= i < |snapshots| ==> snapshots[i].mtime <= r
  {
    if |snapshots| == 1 then snapshots[0].mtime
    else
      var rest := Newest(snapshots[1..]);
      if snapshots[0].mtime > rest then snapshots[0].mtime else rest
  }

  // ----- One feature -----

  /** Acceptance criteria of the feature that no related test mentions. */
  function Unmentioned(f: Feature, related: seq<Snapshot>): set<string> {
    if f.deprecated then {} else Ids(f.acIds) - AllIds(related)
  }

  function Mentioned(f: Feature, related: seq<Snapshot>): set<string> {
    if f.deprecated then {} else Ids(f.acIds) * AllIds(related)
  }

  function Criteria(f: Feature): set<string> {
    if f.deprecated then {} else Ids(f.acIds)
  }

  /** Not every criterion is represented, and the spec is newer than every related test. */
  predicate Stale(f: Feature, related: seq<Snapshot>) {
    related != [] && Unmentioned(f, related) != {} && Newest(related) < f.specMtime
  }

  /** Ids that related tests mention and the spec does not have, plus one for a stale mapping. */
  function Drift(f: Feature, related: seq<Snapshot>): nat {
    if Criteria(f) == {} then 0
    else |AllIds(related) - Ids(f.acIds)| + if Stale(f, related) then 1 else 0
  }

  // ----- The whole coverage -----

  datatype Coverage = Coverage(total: nat, covered: nat, drift: nat, missing: nat)

  function Sum(features: seq<Feature>, size: Feature -> nat): nat {
    if features == [] then 0 else Sum(features[..|features| - 1], size) + size(features[|features| - 1])
  }

  function Criterion(): Feature -> nat {
    (f: Feature) => |Criteria(f)|
  }

  function Hit(m: Matcher, snapshots: seq<Snapshot>): Feature -> nat {
    (f: Feature) => |Mentioned(f, Related(m, snapshots, f.name))|
  }

  function Miss(m: Matcher, snapshots: seq<Snapshot>): Feature -> nat {
    (f: Feature) => |Unmentioned(f, Related(m, snapshots, f.name))|
  }

  function Drifting(m: Matcher, snapshots: seq<Snapshot>): Feature -> nat {
    (f: Feature) => Drift(f, Related(m, snapshots, f.name))
  }

  lemma SplitBy(a: set<string>, b: set<string>)
    ensures |a * b| + |a - b| == |a|
  {
    assert a == (a * b) + (a - b);
  }

  /** The loops over the related tests of one feature. */
  method CollectIds(specAcIds: set<string>, related: seq<Snapshot>) returns (mentioned: set<string>, unknown: set<string>)
    ensures mentioned == specAcIds * AllIds(related)
    ensures unknown == AllIds(related) - specAcIds
  {
    mentioned, unknown := {}, {};
    for i := 0 to |related|
      invariant mentioned == specAcIds * AllIds(related[..i])
      invariant unknown == AllIds(related[..i]) - specAcIds
    {
      var acIds := related[i].acIds;
      assert related[..i + 1][..i] == related[..i];
      for j := 0 to |acIds|
        invariant mentioned == specAcIds * (AllIds(related[..i]) + Ids(acIds[..j]))
        invariant unknown == (AllIds(related[..i]) + Ids(acIds[..j])) - specAcIds
      {
        assert Ids(acIds[..j + 1]) == Ids(acIds[..j]) + {acIds[j]};
        if acIds[j] in specAcIds {
          mentioned := mentioned + {acIds[j]};
        } else {
          unknown := unknown + {acIds[j]};
        }
      }
      assert acIds[..|acIds|] == acIds;
    }
    assert related[..|related|] == related;
  }

  /** The part of one feature: nothing for a retired story or one without criteria. */
  method FeatureCoverage(feature: Feature, related: seq<Snapshot>) returns (c: Coverage)
    ensures c.total == |Criteria(feature)| && c.covered == |Mentioned(feature, related)|
    ensures c.missing == |Unmentioned(feature, related)| && c.drift == Drift(feature, related)
    ensures c.covered + c.missing == c.total
  {
    if feature.deprecated {
      return Coverage(0, 0, 0, 0);
    }
    var specAcIds := Ids(feature.acIds);
    if |specAcIds| == 0 {
      return Coverage(0, 0, 0, 0);
    }
    SplitBy(specAcIds, AllIds(related));
    var mentioned, unknown := CollectIds(specAcIds, related);
    var drift := |unknown|;
    if related != [] && |mentioned| < |specAcIds| {
      if Newest(related) < feature.specMtime {
        drift := drift + 1;
      }
    }
    c := Coverage(|specAcIds|, |mentioned|, drift, |specAcIds| - |mentioned|);
  }

  /** calculateAcceptanceCoverage: every criterion of a live feature is covered or missing, and covered means
      mentioned by a related test. */
  method AcceptanceCoverage(m: Matcher, features: seq<Feature>, snapshots: seq<Snapshot>) returns (c: Coverage)
    ensures c.total == Sum(features, Criterion())
    ensures c.covered == Sum(features, Hit(m, snapshots))
    ensures c.missing == Sum(features, Miss(m, snapshots))
    ensures c.drift == Sum(features, Drifting(m, snapshots))
    ensures c.covered + c.missing == c.total
  {
    var total: nat, covered: nat, drift: nat := 0, 0, 0;
    ghost var missing: nat := 0;
    for i := 0 to |features|
      invariant total == Sum(features[..i], Criterion())
      invariant covered == Sum(features[..i], Hit(m, snapshots))
      invariant missing == Sum(features[..i], Miss(m, snapshots))
      invariant drift == Sum(features[..i], Drifting(m, snapshots))
      invariant covered + missing == total
    {
      assert features[..i + 1][..i] == features[..i];
      var one := FeatureCoverage(features[i], Related(m, snapshots, features[i].name));
      total, covered, drift, missing := total + one.total, covered + one.covered, drift + one.drift, missing + one.missing;
    }
    assert features[..|features|] == features;
    c := Coverage(total, covered, drift, if total > covered then total - covered else 0);
  }

  // ----- The score -----

  /** The latest run: tests that passed out of those that ran, and its age in whole days. */
  datatype LatestRun = LatestRun(passed: nat, total: nat, days: int)

  datatype Inputs = Inputs(
    complete: nat,
    partial: nat,
    features: nat,
    traced: nat,
    covered: nat,
    criteria: nat,
    run: Option<LatestRun>)

  function Percent(part: real, whole: nat): real {
    if whole == 0 then 0.0 else part / (whole as real) * 100.0
  }

  function SpecCompleteness(i: Inputs): real {
    Percent(i.complete as real + i.partial as real * 0.5, i.features)
  }

  function Traceability(i: Inputs): real {
    if i.criteria > 0 then Percent(i.covered as real, i.criteria) else Percent(i.traced as real, i.features)
  }

  function PassRate(i: Inputs): real {
    if i.run.Some? then Percent(i.run.value.passed as real, i.run.value.total) else 0.0
  }

  function Freshness(i: Inputs): real {
    if i.run.None? then 0.0
    else
      var score := 100.0 - i.run.value.days as real * 7.0;
      if score > 0.0 then score else 0.0
  }

  function HealthScore(i: Inputs): int {
    Arithmetic.Round(SpecCompleteness(i) * 0.4 + Traceability(i) * 0.3 + PassRate(i) * 0.2 + Freshness(i) * 0.1)
  }

  predicate Consistent(i: Inputs) {
    && i.complete + i.partial <= i.features
    && i.traced <= i.features
    && i.covered <= i.criteria
    && (i.run.Some? ==> i.run.value.passed <= i.run.value.total)
  }

  lemma PercentRange(part: real, whole: nat)
    requires 0.0 <= part <= whole as real
    ensures 0.0 <= Percent(part, whole) <= 100.0
  {
    if whole > 0 {
      var q := part / whole as real;
      assert q * whole as real == part;
      assert q >= 0.0;
      assert (1.0 - q) * whole as real >= 0.0;
      assert q <= 1.0;
    }
  }

  lemma ComponentsInRange(i: Inputs)
    requires Consistent(i)
    ensures 0.0 <= SpecCompleteness(i) <= 100.0
    ensures 0.0 <= Traceability(i) <= 100.0
    ensures 0.0 <= PassRate(i) <= 100.0
    ensures 0.0 <= Freshness(i)
    ensures i.run.Some? && i.run.value.days >= 0 ==> Freshness(i) <= 100.0
  {
    PercentRange(i.complete as real + i.partial as real * 0.5, i.features);
    PercentRange(i.traced as real, i.features);
    PercentRange(i.covered as real, i.criteria);
    if i.run.Some? {
      PercentRange(i.run.value.passed as real, i.run.value.total);
    }
  }

  /** The score is a percentage for everything a project can measure, unless the last run lies in the future. */
  lemma ScoreInRange(i: Inputs)
    requires Consistent(i)
    requires i.run.Some? ==> i.run.value.days >= 0
    ensures 0 <= HealthScore(i) <= 100
  {
    ComponentsInRange(i);
    var sum := SpecCompleteness(i) * 0.4 + Traceability(i) * 0.3 + PassRate(i) * 0.2 + Freshness(i) * 0.1;
    assert 0.0 <= sum <= 100.0;
  }

  function Perfect(days: int): Inputs {
    Inputs(1, 0, 1, 1, 1, 1, Some(LatestRun(1, 1, days)))
  }

  lemma PerfectScore(days: int)
    requires days < 0
    ensures Consistent(Perfect(days)) && HealthScore(Perfect(days)) > 100
  {
    var i := Perfect(days);
    assert SpecCompleteness(i) == 100.0 && Traceability(i) == 100.0 && PassRate(i) == 100.0;
    assert Freshness(i) >= 107.0;
  }

  /** For a given age of the last run, all scores are percentages exactly when the age is not negative. */
  lemma ScoresInRangeIff(days: int)
    ensures (forall i :: Consistent(i) && i.run.Some? && i.run.value.days == days ==> 0 <= HealthScore(i) <= 100)
            <==> days >= 0
  {
    if days >= 0 {
      forall i | Consistent(i) && i.run.Some? && i.run.value.days == days
        ensures 0 <= HealthScore(i) <= 100
      {
        ScoreInRange(i);
      }
    } else {
      PerfectScore(days);
    }
  }

  // ----- From what is measured to the score -----

  function CountStatus(features: seq<Feature>, status: SpecStatus): nat {
    if features == [] then 0
    else (if features[0].status == status then 1 else 0) + CountStatus(features[1..], status)
  }

  lemma {:induction false} StatusesAddUp(features: seq<Feature>)
    ensures CountStatus(features, Complete) + CountStatus(features, Partial) + CountStatus(features, Missing) == |features|
  {
    if features != [] {
      StatusesAddUp(features[1..]);
    }
  }

  /** The names the traceability map holds with the value true. */
  function TracedNames(features: seq<Feature>, traced: string -> bool): set<string> {
    set i | 0 <= i < |features| && traced(features[i].name) :: features[i].name
  }

  lemma {:induction false} TracedAtMostFeatures(features: seq<Feature>, traced: string -> bool)
    ensures |TracedNames(features, traced)| <= |features|
  {
    if features == [] {
      assert TracedNames(features, traced) == {};
    } else {
      var n := |features| - 1;
      var front := features[..n];
      TracedAtMostFeatures(front, traced);
      var last := if traced(features[n].name) then {features[n].name} else {};
      assert forall i :: 0 <= i < n ==> front[i] == features[i];
      assert TracedNames(features, traced) == TracedNames(front, traced) + last;
    }
  }

  /** A report and the age of its file. */
  datatype Report = Report(suites: seq<TestResults.SuiteNode>, days: int)

  /** One refresh: whatever the specs, tests and report are, the inputs of the score are consistent, so the
      score is a percentage unless the report comes from the future. */
  method Refresh(m: Matcher, slug: TestResults.Slug, features: seq<Feature>, snapshots: seq<Snapshot>,
                 traced: string -> bool, report: Option<Report>)
    returns (inputs: Inputs, score: int)
    ensures Consistent(inputs) && score == HealthScore(inputs)
    ensures inputs.run.Some? <==> report.Some?
    ensures report.None? || report.value.days >= 0 ==> 0 <= score <= 100
  {
    StatusesAddUp(features);
    TracedAtMostFeatures(features, traced);
    var coverage := AcceptanceCoverage(m, features, snapshots);
    var run := None;
    if report.Some? {
      var stats := TestResults.CountResults(slug, report.value.suites);
      run := Some(LatestRun(stats.totals[TestResults.Pass], stats.totals[TestResults.Ran], report.value.days));
    }
    inputs := Inputs(
      CountStatus(features, Complete), CountStatus(features, Partial), |features|,
      |TracedNames(features, traced)|, coverage.covered, coverage.total, run);
    score := HealthScore(inputs);
    if report.None? || report.value.days >= 0 {
      ScoreInRange(inputs);
    }
  }
}
