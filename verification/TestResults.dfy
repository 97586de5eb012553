/** countResults: the counters kept while walking the suites of a Playwright report
    (apps/vscode-extension/src/extension/filesystem/PlaywrightOutputReader.ts). */
module TestResults {
  import opened Option
  import opened Sequences
  import Text

  /** The status of a result; Other holds any text but those two, and the missing status. */
  datatype RunStatus = Passed | Skipped | Other(text: Option<string>)

  datatype Outcome = Outcome(status: RunStatus, message: Option<string>)

  datatype TestNode = TestNode(title: Option<string>, message: Option<string>, results: seq<Outcome>)

  datatype SpecNode = SpecNode(title: Option<string>, file: Option<string>, tests: seq<TestNode>)

  datatype SuiteNode = SuiteNode(title: Option<string>, file: Option<string>, specs: seq<SpecNode>, suites: seq<SuiteNode>)

  /** slugFromTitle, taken as it is. */
  type Slug = string -> string

  // ----- The nullish chains -----

  function FirstOf(a: Option<string>, b: Option<string>): Option<string> {
    if a.Some? then a else b
  }

  // ----- One test, with the feature it is counted under -----

  datatype Entry = Entry(key: string, suiteFile: Option<string>, spec: SpecNode, test: TestNode)

  function EntryOf(slug: Slug, suite: SuiteNode, suiteFeature: string, spec: SpecNode, test: TestNode): Entry {
    var feature := slug(Or(FirstOf(spec.file, suite.file), suiteFeature));
    Entry(if feature == "" then "general" else feature, suite.file, spec, test)
  }

  function TestsEntries(slug: Slug, suite: SuiteNode, suiteFeature: string, spec: SpecNode, tests: seq<TestNode>): seq<Entry> {
    if tests == [] then []
    else
      var n := |tests| - 1;
      TestsEntries(slug, suite, suiteFeature, spec, tests[..n]) + [EntryOf(slug, suite, suiteFeature, spec, tests[n])]
  }

  function SpecsEntries(slug: Slug, suite: SuiteNode, suiteFeature: string, specs: seq<SpecNode>): seq<Entry> {
    if specs == [] then []
    else
      var n := |specs| - 1;
      SpecsEntries(slug, suite, suiteFeature, specs[..n])
      + TestsEntries(slug, suite, suiteFeature, specs[n], specs[n].tests)
  }

  function SuiteFeature(slug: Slug, suite: SuiteNode, parentFeature: string): string {
    slug(Or(FirstOf(suite.title, suite.file), parentFeature))
  }

  /** The tests of a list of suites in the order of the walk. */
  function Entries(slug: Slug, suites: seq<SuiteNode>, parentFeature: string): seq<Entry>
    decreases suites
  {
    if suites == [] then []
    else
      var n := |suites| - 1;
      Entries(slug, suites[..n], parentFeature) + SuiteEntries(slug, suites[n], parentFeature)
  }

  function SuiteEntries(slug: Slug, suite: SuiteNode, parentFeature: string): seq<Entry>
    decreases suite
  {
    var feature := SuiteFeature(slug, suite, parentFeature);
    SpecsEntries(slug, suite, feature, suite.specs) + Entries(slug, suite.suites, feature)
  }

  // ----- Counts -----

  /** What a record of counters counts; Ran is its total, which leaves skips out. */
  datatype Kind = Pass | Fail | Skip | Flake | Ran

  /** A record of counters: the multiplicity of a kind is the value of its counter. */
  type Counts = multiset<Kind>

  predicate IsPassed(r: Outcome) {
    r.status.Passed?
  }

  predicate IsSkipped(r: Outcome) {
    r.status.Skipped?
  }

  /** Anything that neither passed nor was skipped, a missing status included. */
  predicate IsFailed(r: Outcome) {
    !IsPassed(r) && !IsSkipped(r)
  }

  function OutcomeCounts(r: Outcome): Counts {
    if IsPassed(r) then multiset{Pass, Ran}
    else if IsSkipped(r) then multiset{Skip}
    else multiset{Fail, Ran}
  }

  function OutcomesCounts(results: seq<Outcome>): Counts {
    if results == [] then multiset{}
    else OutcomesCounts(results[..|results| - 1]) + OutcomeCounts(results[|results| - 1])
  }

  /** Array.some, for a result that passed or for one that did not. */
  predicate HasResult(results: seq<Outcome>, passed: bool) {
    results != [] && (HasResult(results[..|results| - 1], passed) || IsPassed(results[|results| - 1]) == passed)
  }

  predicate RetryPass(test: TestNode) {
    HasResult(test.results, true) && HasResult(test.results, false)
  }

  function RetryCounts(test: TestNode): Counts {
    if RetryPass(test) then multiset{Flake} else multiset{}
  }

  /** What one test adds to every counter it touches. */
  function TestCounts(test: TestNode): Counts {
    RetryCounts(test) + OutcomesCounts(test.results)
  }

  function Sum(entries: seq<Entry>): Counts {
    if entries == [] then multiset{}
    else Sum(entries[..|entries| - 1]) + TestCounts(entries[|entries| - 1].test)
  }

  function OfKey(entries: seq<Entry>, key: string): seq<Entry> {
    if entries == [] then []
    else
      var n := |entries| - 1;
      OfKey(entries[..n], key) + (if entries[n].key == key then [entries[n]] else [])
  }

  // ----- The per-feature map, in insertion order -----

  datatype Feature = Feature(key: string, counts: Counts)

  function Lookup(features: seq<Feature>, key: string): Option<Counts> {
    if features == [] then None
    else if features[0].key == key then Some(features[0].counts)
    else Lookup(features[1..], key)
  }

  function Found(features: seq<Feature>, key: string): Counts {
    var r := Lookup(features, key);
    if r.Some? then r.value else multiset{}
  }

  function Store(features: seq<Feature>, key: string, counts: Counts): seq<Feature> {
    if features == [] then [Feature(key, counts)]
    else if features[0].key == key then [Feature(key, counts)] + features[1..]
    else [features[0]] + Store(features[1..], key, counts)
  }

  function SumFeatures(features: seq<Feature>): Counts {
    if features == [] then multiset{} else features[0].counts + SumFeatures(features[1..])
  }

  predicate DistinctKeys(features: seq<Feature>) {
    forall i, j :: 0 <= i < j < |features| ==> features[i].key != features[j].key
  }

  lemma {:induction false} StoreThenLookup(features: seq<Feature>, key: string, counts: Counts, other: string)
    ensures Lookup(Store(features, key, counts), other) == if other == key then Some(counts) else Lookup(features, other)
  {
    if features != [] && features[0].key != key {
      StoreThenLookup(features[1..], key, counts, other);
    }
  }

  lemma {:induction false} StoreKeepsDistinct(features: seq<Feature>, key: string, counts: Counts)
    requires DistinctKeys(features)
    ensures DistinctKeys(Store(features, key, counts))
    ensures forall f :: f in Store(features, key, counts) ==> f.key == key || f in features
  {
    if features != [] && features[0].key != key {
      var rest := features[1..];
      assert forall i :: 0 <= i < |rest| ==> rest[i] == features[i + 1];
      StoreKeepsDistinct(rest, key, counts);
      assert forall f :: f in rest ==> f.key != features[0].key;
    }
  }

  /** Adding to one feature adds as much to the sum over the features. */
  lemma {:induction false} StoreAdds(features: seq<Feature>, key: string, more: Counts)
    ensures SumFeatures(Store(features, key, Found(features, key) + more)) == SumFeatures(features) + more
  {
    if features != [] && features[0].key != key {
      StoreAdds(features[1..], key, more);
    }
  }

  // ----- Failures -----

  /** A failure, kept with the test and the result whose texts it shows. */
  datatype Failure = Failure(entry: Entry, outcome: Outcome, number: nat) {
    function Id(): string {
      entry.key + "-" + Text.Dec(number)
    }
  }

  /** The failures of the first results of a test, pushed onto a list that already has count of them. */
  function FailuresOf(e: Entry, results: seq<Outcome>, count: nat): seq<Failure> {
    if results == [] then []
    else
      var n := |results| - 1;
      var front := FailuresOf(e, results[..n], count);
      if IsFailed(results[n]) then front + [Failure(e, results[n], count + |front| + 1)] else front
  }

  function AllFailures(entries: seq<Entry>): seq<Failure> {
    if entries == [] then []
    else
      var n := |entries| - 1;
      var front := AllFailures(entries[..n]);
      front + FailuresOf(entries[n], entries[n].test.results, |front|)
  }

  /** Failures are numbered in the order they are met. */
  ghost predicate Numbered(failures: seq<Failure>, count: nat) {
    forall i :: 0 <= i < |failures| ==> failures[i].number == count + i + 1
  }

  lemma {:induction false} FailuresOfCount(e: Entry, results: seq<Outcome>, count: nat)
    ensures |FailuresOf(e, results, count)| == OutcomesCounts(results)[Fail]
  {
    if results != [] {
      FailuresOfCount(e, results[..|results| - 1], count);
      assert OutcomeCounts(results[|results| - 1])[Fail] == if IsFailed(results[|results| - 1]) then 1 else 0;
    }
  }

  lemma {:induction false} FailuresOfNumbered(e: Entry, results: seq<Outcome>, count: nat)
    ensures Numbered(FailuresOf(e, results, count), count)
  {
    if results != [] {
      FailuresOfNumbered(e, results[..|results| - 1], count);
    }
  }

  lemma {:induction false} OneFailurePerFailed(entries: seq<Entry>)
    ensures |AllFailures(entries)| == Sum(entries)[Fail]
    decreases |entries|
  {
    if entries != [] {
      var n := |entries| - 1;
      OneFailurePerFailed(entries[..n]);
      FailuresOfCount(entries[n], entries[n].test.results, |AllFailures(entries[..n])|);
    }
  }

  lemma {:induction false} FailuresAreNumbered(entries: seq<Entry>)
    ensures Numbered(AllFailures(entries), 0)
    decreases |entries|
  {
    if entries != [] {
      var n := |entries| - 1;
      FailuresAreNumbered(entries[..n]);
      var front := AllFailures(entries[..n]);
      FailuresOfNumbered(entries[n], entries[n].test.results, |front|);
    }
  }

  function AfterLastDash(s: string): string {
    if s == [] || s[|s| - 1] == '-' then [] else AfterLastDash(s[..|s| - 1]) + [s[|s| - 1]]
  }

  lemma {:induction false} DashThenDigits(front: string, digits: string)
    requires forall i :: 0 <= i < |digits| ==> digits[i] != '-'
    ensures AfterLastDash(front + "-" + digits) == digits
  {
    var s := front + "-" + digits;
    if digits == [] {
      assert s[|s| - 1] == '-';
    } else {
      var n := |digits| - 1;
      assert s[..|s| - 1] == front + "-" + digits[..n];
      DashThenDigits(front, digits[..n]);
      assert s[|s| - 1] == digits[n];
    }
  }

  /** No two failures share an id, even when keys contain dashes and digits. */
  lemma IdsAreDistinct(failures: seq<Failure>, i: nat, j: nat)
    requires Numbered(failures, 0) && i < j < |failures|
    ensures failures[i].Id() != failures[j].Id()
  {
    DashThenDigits(failures[i].entry.key, Text.Dec(i + 1));
    DashThenDigits(failures[j].entry.key, Text.Dec(j + 1));
    if failures[i].Id() == failures[j].Id() {
      Text.DecInjective(i + 1, j + 1);
    }
  }

  // ----- Conservation -----

  /** What is counted so far. */
  datatype Stats = Stats(totals: Counts, perFeature: seq<Feature>, failures: seq<Failure>)

  const START := Stats(multiset{}, [], [])

  /** The effect of one test. */
  function Record(s: Stats, e: Entry): Stats {
    Stats(
      s.totals + TestCounts(e.test),
      Store(s.perFeature, e.key, Found(s.perFeature, e.key) + TestCounts(e.test)),
      s.failures + FailuresOf(e, e.test.results, |s.failures|))
  }

  function RecordAll(s: Stats, entries: seq<Entry>): Stats {
    if entries == [] then s else Record(RecordAll(s, entries[..|entries| - 1]), entries[|entries| - 1])
  }

  lemma {:induction false} RecordAllAppend(s: Stats, xs: seq<Entry>, ys: seq<Entry>)
    ensures RecordAll(s, xs + ys) == RecordAll(RecordAll(s, xs), ys)
    decreases |ys|
  {
    if ys == [] {
      assert xs + ys == xs;
    } else {
      assert (xs + ys)[..|xs + ys| - 1] == xs + ys[..|ys| - 1];
      RecordAllAppend(s, xs, ys[..|ys| - 1]);
    }
  }

  lemma {:induction false} RecordedTotals(entries: seq<Entry>)
    ensures RecordAll(START, entries).totals == Sum(entries)
    ensures RecordAll(START, entries).failures == AllFailures(entries)
    decreases |entries|
  {
    if entries != [] {
      RecordedTotals(entries[..|entries| - 1]);
    }
  }

  /** The features add up to the totals. */
  lemma {:induction false} FeaturesAddUp(entries: seq<Entry>)
    ensures DistinctKeys(RecordAll(START, entries).perFeature)
    ensures SumFeatures(RecordAll(START, entries).perFeature) == RecordAll(START, entries).totals
    decreases |entries|
  {
    if entries != [] {
      var n := |entries| - 1;
      FeaturesAddUp(entries[..n]);
      var features := RecordAll(START, entries[..n]).perFeature;
      var more := TestCounts(entries[n].test);
      StoreKeepsDistinct(features, entries[n].key, Found(features, entries[n].key) + more);
      StoreAdds(features, entries[n].key, more);
    }
  }

  lemma SumSnoc(entries: seq<Entry>, e: Entry)
    ensures Sum(entries + [e]) == Sum(entries) + TestCounts(e.test)
  {
    assert (entries + [e])[..|entries|] == entries;
  }

  /** Each feature counts its own tests, and is in the map exactly when it has one. */
  lemma {:induction false} FeatureCountsItsTests(entries: seq<Entry>, key: string)
    ensures Found(RecordAll(START, entries).perFeature, key) == Sum(OfKey(entries, key))
    ensures Lookup(RecordAll(START, entries).perFeature, key).Some? <==> OfKey(entries, key) != []
    decreases |entries|
  {
    if entries != [] {
      var n := |entries| - 1;
      var e := entries[n];
      FeatureCountsItsTests(entries[..n], key);
      var features := RecordAll(START, entries[..n]).perFeature;
      StoreThenLookup(features, e.key, Found(features, e.key) + TestCounts(e.test), key);
      if e.key == key {
        SumSnoc(OfKey(entries[..n], key), e);
      } else {
        assert OfKey(entries, key) == OfKey(entries[..n], key);
      }
    }
  }

  lemma {:induction false} TotalIsPassedPlusFailed(entries: seq<Entry>)
    ensures Sum(entries)[Ran] == Sum(entries)[Pass] + Sum(entries)[Fail]
    decreases |entries|
  {
    if entries != [] {
      TotalIsPassedPlusFailed(entries[..|entries| - 1]);
      OutcomesTotal(entries[|entries| - 1].test.results);
    }
  }

  lemma {:induction false} OutcomesTotal(results: seq<Outcome>)
    ensures OutcomesCounts(results)[Ran] == OutcomesCounts(results)[Pass] + OutcomesCounts(results)[Fail]
    ensures OutcomesCounts(results)[Ran] + OutcomesCounts(results)[Skip] == |results|
    ensures OutcomesCounts(results)[Flake] == 0
  {
    if results != [] {
      var front, one := results[..|results| - 1], OutcomeCounts(results[|results| - 1]);
      OutcomesTotal(front);
      assert OutcomesCounts(results) == OutcomesCounts(front) + one;
      assert one[Ran] == one[Pass] + one[Fail] && one[Ran] + one[Skip] == 1 && one[Flake] == 0;
    }
  }

  /** A test is flaky at most once, and only if something passed: flaky never exceeds passed. */
  lemma {:induction false} FlakyAtMostPassed(entries: seq<Entry>)
    ensures Sum(entries)[Flake] <= Sum(entries)[Pass]
    decreases |entries|
  {
    if entries != [] {
      var n := |entries| - 1;
      FlakyAtMostPassed(entries[..n]);
      OutcomesTotal(entries[n].test.results);
      if RetryPass(entries[n].test) {
        SomePassedCounts(entries[n].test.results);
      }
    }
  }

  lemma {:induction false} SomePassedCounts(results: seq<Outcome>)
    requires HasResult(results, true)
    ensures OutcomesCounts(results)[Pass] > 0
  {
    if !IsPassed(results[|results| - 1]) {
      SomePassedCounts(results[..|results| - 1]);
    }
  }

  // ----- The walk -----

  /** The totals, the feature's record and the failures while the results of one test are counted. */
  datatype Tally = Tally(totals: Counts, existing: Counts, failures: seq<Failure>)

  function TallyStep(t: Tally, e: Entry, r: Outcome): Tally {
    Tally(
      t.totals + OutcomeCounts(r),
      t.existing + OutcomeCounts(r),
      t.failures + if IsFailed(r) then [Failure(e, r, |t.failures| + 1)] else [])
  }

  function TallyAll(t: Tally, e: Entry, results: seq<Outcome>): Tally {
    if results == [] then t else TallyStep(TallyAll(t, e, results[..|results| - 1]), e, results[|results| - 1])
  }

  lemma TallyStepAdds(t: Tally, e: Entry, r: Outcome, counts: Counts, front: seq<Failure>)
    ensures TallyStep(Tally(t.totals + counts, t.existing + counts, t.failures + front), e, r)
            == Tally(t.totals + (counts + OutcomeCounts(r)), t.existing + (counts + OutcomeCounts(r)),
                     t.failures + (front + if IsFailed(r) then [Failure(e, r, |t.failures| + |front| + 1)] else []))
  {
    var last := if IsFailed(r) then [Failure(e, r, |t.failures| + |front| + 1)] else [];
    assert (t.totals + counts) + OutcomeCounts(r) == t.totals + (counts + OutcomeCounts(r));
    assert (t.existing + counts) + OutcomeCounts(r) == t.existing + (counts + OutcomeCounts(r));
    assert (t.failures + front) + last == t.failures + (front + last);
  }

  lemma {:induction false} TallyAdds(t: Tally, e: Entry, results: seq<Outcome>)
    ensures TallyAll(t, e, results)
            == Tally(t.totals + OutcomesCounts(results), t.existing + OutcomesCounts(results),
                     t.failures + FailuresOf(e, results, |t.failures|))
  {
    if results == [] {
      assert t.totals + multiset{} == t.totals && t.existing + multiset{} == t.existing;
      assert t.failures + [] == t.failures;
    } else {
      var n := |results| - 1;
      var counts, front := OutcomesCounts(results[..n]), FailuresOf(e, results[..n], |t.failures|);
      TallyAdds(t, e, results[..n]);
      TallyStepAdds(t, e, results[n], counts, front);
      assert OutcomesCounts(results) == counts + OutcomeCounts(results[n]);
      assert FailuresOf(e, results, |t.failures|)
             == front + if IsFailed(results[n]) then [Failure(e, results[n], |t.failures| + |front| + 1)] else [];
    }
  }

  /** Counting the retry and then the results is what Record does at once. */
  lemma RecordByParts(s: Stats, e: Entry, t: Tally)
    requires t.totals == s.totals + RetryCounts(e.test) + OutcomesCounts(e.test.results)
    requires t.existing == Found(s.perFeature, e.key) + RetryCounts(e.test) + OutcomesCounts(e.test.results)
    requires t.failures == s.failures + FailuresOf(e, e.test.results, |s.failures|)
    ensures Stats(t.totals, Store(s.perFeature, e.key, t.existing), t.failures) == Record(s, e)
  {
    assert t.totals == s.totals + TestCounts(e.test);
    assert t.existing == Found(s.perFeature, e.key) + TestCounts(e.test);
  }

  lemma RecordAllSnoc(s: Stats, entries: seq<Entry>, e: Entry)
    ensures RecordAll(s, entries + [e]) == Record(RecordAll(s, entries), e)
  {
    assert (entries + [e])[..|entries|] == entries;
  }

  lemma TestsEntriesSnoc(slug: Slug, suite: SuiteNode, suiteFeature: string, spec: SpecNode, i: nat)
    requires i < |spec.tests|
    ensures TestsEntries(slug, suite, suiteFeature, spec, spec.tests[..i + 1])
            == TestsEntries(slug, suite, suiteFeature, spec, spec.tests[..i])
               + [EntryOf(slug, suite, suiteFeature, spec, spec.tests[i])]
  {
    TakeTake(spec.tests, i);
  }

  lemma RecordTest(s: Stats, slug: Slug, suite: SuiteNode, suiteFeature: string, spec: SpecNode, i: nat)
    requires i < |spec.tests|
    ensures RecordAll(s, TestsEntries(slug, suite, suiteFeature, spec, spec.tests[..i + 1]))
            == Record(RecordAll(s, TestsEntries(slug, suite, suiteFeature, spec, spec.tests[..i])),
                      EntryOf(slug, suite, suiteFeature, spec, spec.tests[i]))
  {
    TestsEntriesSnoc(slug, suite, suiteFeature, spec, i);
    RecordAllSnoc(s, TestsEntries(slug, suite, suiteFeature, spec, spec.tests[..i]),
                  EntryOf(slug, suite, suiteFeature, spec, spec.tests[i]));
  }

  function TotalsOf(passed: nat, failed: nat, skipped: nat, flaky: nat): Counts {
    multiset{}[Pass := passed][Fail := failed][Skip := skipped][Flake := flaky][Ran := passed + failed]
  }

  lemma PassedGrows(passed: nat, failed: nat, skipped: nat, flaky: nat)
    ensures TotalsOf(passed + 1, failed, skipped, flaky) == TotalsOf(passed, failed, skipped, flaky) + multiset{Pass, Ran}
  {
  }

  lemma FailedGrows(passed: nat, failed: nat, skipped: nat, flaky: nat)
    ensures TotalsOf(passed, failed + 1, skipped, flaky) == TotalsOf(passed, failed, skipped, flaky) + multiset{Fail, Ran}
  {
  }

  lemma SkippedGrows(passed: nat, failed: nat, skipped: nat, flaky: nat)
    ensures TotalsOf(passed, failed, skipped + 1, flaky) == TotalsOf(passed, failed, skipped, flaky) + multiset{Skip}
  {
  }

  lemma FlakyGrows(passed: nat, failed: nat, skipped: nat, flaky: nat)
    ensures TotalsOf(passed, failed, skipped, flaky + 1) == TotalsOf(passed, failed, skipped, flaky) + multiset{Flake}
  {
  }

  /** The counters the nested walk updates in place. */
  class Counter {
    var passed: nat
    var failed: nat
    var skipped: nat
    var flaky: nat
    var perFeature: seq<Feature>
    var failures: seq<Failure>

    function Totals(): Counts
      reads this
    {
      TotalsOf(passed, failed, skipped, flaky)
    }

    function Abs(): Stats
      reads this
    {
      Stats(Totals(), perFeature, failures)
    }

    constructor ()
      ensures Abs() == START
    {
      passed, failed, skipped, flaky := 0, 0, 0, 0;
      perFeature, failures := [], [];
    }

    /** One result of a test. */
    method CountOutcome(e: Entry, r: Outcome, before: Counts) returns (existing: Counts)
      modifies this`passed, this`failed, this`skipped, this`failures
      ensures existing == before + OutcomeCounts(r)
      ensures Totals() == old(Totals()) + OutcomeCounts(r)
      ensures failures == old(failures) + if IsFailed(r) then [Failure(e, r, |old(failures)| + 1)] else []
    {
      existing := before;
      if IsPassed(r) {
        PassedGrows(passed, failed, skipped, flaky);
        passed := passed + 1;
        existing := existing + multiset{Pass, Ran};
      } else if IsSkipped(r) {
        SkippedGrows(passed, failed, skipped, flaky);
        skipped := skipped + 1;
        existing := existing + multiset{Skip};
      } else {
        FailedGrows(passed, failed, skipped, flaky);
        failed := failed + 1;
        existing := existing + multiset{Fail, Ran};
        failures := failures + [Failure(e, r, |failures| + 1)];
      }
    }

    method CountOutcomes(e: Entry, before: Counts) returns (existing: Counts)
      modifies this`passed, this`failed, this`skipped, this`failures
      ensures existing == before + OutcomesCounts(e.test.results)
      ensures Totals() == old(Totals()) + OutcomesCounts(e.test.results)
      ensures failures == old(failures) + FailuresOf(e, e.test.results, |old(failures)|)
    {
      var results := e.test.results;
      ghost var start := Tally(Totals(), before, failures);
      TallyAdds(start, e, results);
      existing := before;
      for i := 0 to |results|
        invariant Tally(Totals(), existing, failures) == TallyAll(start, e, results[..i])
      {
        TakeTake(results, i);
        existing := CountOutcome(e, results[i], existing);
      }
      assert results[..|results|] == results;
    }

    /** A test that passed after some other result is flaky, once. */
    method CountRetry(test: TestNode, before: Counts) returns (existing: Counts)
      modifies this`flaky
      ensures existing == before + RetryCounts(test)
      ensures Totals() == old(Totals()) + RetryCounts(test)
    {
      existing := before;
      if RetryPass(test) {
        FlakyGrows(passed, failed, skipped, flaky);
        flaky := flaky + 1;
        existing := existing + multiset{Flake};
      }
    }

    method CountTest(e: Entry)
      modifies this
      ensures Abs() == Record(old(Abs()), e)
    {
      ghost var before := Abs();
      var existing := CountRetry(e.test, Found(perFeature, e.key));
      existing := CountOutcomes(e, existing);
      RecordByParts(before, e, Tally(Totals(), existing, failures));
      perFeature := Store(perFeature, e.key, existing);
    }

    method CountSpec(slug: Slug, suite: SuiteNode, suiteFeature: string, spec: SpecNode)
      modifies this
      ensures Abs() == RecordAll(old(Abs()), TestsEntries(slug, suite, suiteFeature, spec, spec.tests))
    {
      for i := 0 to |spec.tests|
        invariant Abs() == RecordAll(old(Abs()), TestsEntries(slug, suite, suiteFeature, spec, spec.tests[..i]))
      {
        RecordTest(old(Abs()), slug, suite, suiteFeature, spec, i);
        CountTest(EntryOf(slug, suite, suiteFeature, spec, spec.tests[i]));
      }
      assert spec.tests[..|spec.tests|] == spec.tests;
    }

    method CountSpecs(slug: Slug, suite: SuiteNode, suiteFeature: string)
      modifies this
      ensures Abs() == RecordAll(old(Abs()), SpecsEntries(slug, suite, suiteFeature, suite.specs))
    {
      for i := 0 to |suite.specs|
        invariant Abs() == RecordAll(old(Abs()), SpecsEntries(slug, suite, suiteFeature, suite.specs[..i]))
      {
        TakeTake(suite.specs, i);
        RecordAllAppend(old(Abs()), SpecsEntries(slug, suite, suiteFeature, suite.specs[..i]),
                        TestsEntries(slug, suite, suiteFeature, suite.specs[i], suite.specs[i].tests));
        CountSpec(slug, suite, suiteFeature, suite.specs[i]);
      }
      assert suite.specs[..|suite.specs|] == suite.specs;
    }

    method Walk(slug: Slug, suites: seq<SuiteNode>, parentFeature: string)
      modifies this
      ensures Abs() == RecordAll(old(Abs()), Entries(slug, suites, parentFeature))
      decreases suites
    {
      for i := 0 to |suites|
        invariant Abs() == RecordAll(old(Abs()), Entries(slug, suites[..i], parentFeature))
      {
        TakeTake(suites, i);
        RecordAllAppend(old(Abs()), Entries(slug, suites[..i], parentFeature),
                        SuiteEntries(slug, suites[i], parentFeature));
        WalkSuite(slug, suites[i], parentFeature);
      }
      assert suites[..|suites|] == suites;
    }

    method WalkSuite(slug: Slug, suite: SuiteNode, parentFeature: string)
      modifies this
      ensures Abs() == RecordAll(old(Abs()), SuiteEntries(slug, suite, parentFeature))
      decreases suite
    {
      var feature := SuiteFeature(slug, suite, parentFeature);
      RecordAllAppend(Abs(), SpecsEntries(slug, suite, feature, suite.specs), Entries(slug, suite.suites, feature));
      CountSpecs(slug, suite, feature);
      Walk(slug, suite.suites, feature);
    }
  }

  /** countResults over any report: the per-feature counts add up to the totals and each is the count of
      its own tests, total is passed plus failed, and the failures are exactly the failed results, with
      distinct ids. */
  method CountResults(slug: Slug, suites: seq<SuiteNode>) returns (r: Stats)
    ensures r.totals == Sum(Entries(slug, suites, "general"))
    ensures r.totals[Ran] == r.totals[Pass] + r.totals[Fail]
    ensures r.totals[Flake] <= r.totals[Pass]
    ensures SumFeatures(r.perFeature) == r.totals && DistinctKeys(r.perFeature)
    ensures forall key: string :: Found(r.perFeature, key) == Sum(OfKey(Entries(slug, suites, "general"), key))
    ensures |r.failures| == r.totals[Fail]
    ensures r.failures == AllFailures(Entries(slug, suites, "general"))
    ensures forall i, j :: 0 <= i < j < |r.failures| ==> r.failures[i].Id() != r.failures[j].Id()
  {
    var counter := new Counter();
    counter.Walk(slug, suites, "general");
    r := counter.Abs();
    ghost var entries := Entries(slug, suites, "general");
    RecordedTotals(entries);
    FeaturesAddUp(entries);
    TotalIsPassedPlusFailed(entries);
    FlakyAtMostPassed(entries);
    OneFailurePerFailed(entries);
    FailuresAreNumbered(entries);
    forall key: string
      ensures Found(r.perFeature, key) == Sum(OfKey(entries, key))
    {
      FeatureCountsItsTests(entries, key);
    }
    forall i, j | 0 <= i < j < |r.failures|
      ensures r.failures[i].Id() != r.failures[j].Id()
    {
      IdsAreDistinct(r.failures, i, j);
    }
  }
}
