/** From the JSON report of a test run to the payload of run_tests
    (apps/runtime-mcp/src/mcp/tools/test-tool.ts): the walk over the suites, the failed-first sort,
    the counts, and the entries of the payload. */
module RunReport {
  import opened Option
  import opened Sequences
  import Arithmetic
  import opened Json
  import Text

  datatype Attachment = Attachment(name: Option<string>, contentType: Option<string>, path: Option<string>)

  /** An error message comes with its colour codes already removed. */
  datatype RunResult = RunResult(
    status: Option<string>,
    duration: Option<real>,
    error: Option<string>,
    attachments: seq<Attachment>)

  datatype TestSpec = TestSpec(title: Option<string>, file: Option<string>, tests: seq<seq<RunResult>>)

  datatype Suite = Suite(title: Option<string>, file: Option<string>, specs: seq<TestSpec>, suites: seq<Suite>)

  datatype Status = Passed | Failed | Skipped | TimedOut | Interrupted

  datatype Case = Case(
    title: string,
    file: string,
    status: Status,
    durationMs: int,
    error: Option<string>,
    attachments: seq<Attachment>)

  function MapStatus(status: Option<string>): Status {
    if status == Some("passed") then Passed
    else if status == Some("skipped") then Skipped
    else if status == Some("timedOut") then TimedOut
    else if status == Some("interrupted") then Interrupted
    else Failed
  }

  // ----- The walk -----

  function CaseOf(title: string, file: string, result: RunResult): Case {
    Case(title, file, MapStatus(result.status),
         Arithmetic.Round(if result.duration.Some? then result.duration.value else 0.0),
         result.error, result.attachments)
  }

  /** One case per test that has a result: its last one. */
  function TestsCases(tests: seq<seq<RunResult>>, title: string, file: string): seq<Case> {
    if tests == [] then []
    else
      var n := |tests| - 1;
      TestsCases(tests[..n], title, file)
      + (if tests[n] == [] then [] else [CaseOf(title, file, tests[n][|tests[n]| - 1])])
  }

  function SpecCases(spec: TestSpec, title: string, file: Option<string>): seq<Case> {
    TestsCases(spec.tests, Or(spec.title, title), Or(spec.file, Or(file, "")))
  }

  function SpecsCases(specs: seq<TestSpec>, title: string, file: Option<string>): seq<Case> {
    if specs == [] then []
    else
      var n := |specs| - 1;
      SpecsCases(specs[..n], title, file) + SpecCases(specs[n], title, file)
  }

  function SuiteCases(suite: Suite, parentTitle: string): seq<Case>
    decreases suite
  {
    var title := Or(suite.title, parentTitle);
    SpecsCases(suite.specs, title, suite.file) + SuitesCases(suite.suites, title)
  }

  function SuitesCases(suites: seq<Suite>, parentTitle: string): seq<Case>
    decreases suites
  {
    if suites == [] then []
    else
      var n := |suites| - 1;
      SuitesCases(suites[..n], parentTitle) + SuiteCases(suites[n], parentTitle)
  }

  /** The list the nested walk pushes onto. */
  class Collector {
    var testCases: seq<Case>

    constructor ()
      ensures testCases == []
    {
      testCases := [];
    }

    method PushTests(tests: seq<seq<RunResult>>, title: string, file: string)
      modifies this
      ensures testCases == old(testCases) + TestsCases(tests, title, file)
    {
      for i := 0 to |tests|
        invariant testCases == old(testCases) + TestsCases(tests[..i], title, file)
      {
        TakeTake(tests, i);
        if tests[i] != [] {
          testCases := testCases + [CaseOf(title, file, tests[i][|tests[i]| - 1])];
        }
      }
      assert tests[..|tests|] == tests;
    }

    method PushSpec(spec: TestSpec, title: string, file: Option<string>)
      modifies this
      ensures testCases == old(testCases) + SpecCases(spec, title, file)
    {
      PushTests(spec.tests, Or(spec.title, title), Or(spec.file, Or(file, "")));
    }

    method PushSpecs(specs: seq<TestSpec>, title: string, file: Option<string>)
      modifies this
      ensures testCases == old(testCases) + SpecsCases(specs, title, file)
    {
      for i := 0 to |specs|
        invariant testCases == old(testCases) + SpecsCases(specs[..i], title, file)
      {
        TakeTake(specs, i);
        PushSpec(specs[i], title, file);
      }
      assert specs[..|specs|] == specs;
    }

    method WalkSuite(suite: Suite, parentTitle: string)
      modifies this
      ensures testCases == old(testCases) + SuiteCases(suite, parentTitle)
      decreases suite
    {
      var title := Or(suite.title, parentTitle);
      PushSpecs(suite.specs, title, suite.file);
      WalkSuites(suite.suites, title);
    }

    method WalkSuites(suites: seq<Suite>, parentTitle: string)
      modifies this
      ensures testCases == old(testCases) + SuitesCases(suites, parentTitle)
      decreases suites
    {
      for i := 0 to |suites|
        invariant testCases == old(testCases) + SuitesCases(suites[..i], parentTitle)
      {
        TakeTake(suites, i);
        WalkSuite(suites[i], parentTitle);
      }
      assert suites[..|suites|] == suites;
    }
  }

  // ----- The failed-first sort -----

  function Priority(s: Status): nat {
    match s
    case Failed => 0
    case TimedOut => 0
    case Interrupted => 0
    case Skipped => 1
    case Passed => 2
  }

  predicate Problem(s: Status) {
    s.Failed? || s.TimedOut? || s.Interrupted?
  }

  function OfPriority(cases: seq<Case>, p: nat): seq<Case> {
    if cases == [] then []
    else (if Priority(cases[0].status) == p then [cases[0]] else []) + OfPriority(cases[1..], p)
  }

  ghost predicate Ordered(cases: seq<Case>) {
    forall i, j :: 0 <= i < j < |cases| ==> Priority(cases[i].status) <= Priority(cases[j].status)
  }

  /** What Array.prototype.sort promises (section 23.1.3.30 of ECMA-262): ordered, the same elements,
      and equals in their old order. */
  ghost predicate IsStableSort(before: seq<Case>, after: seq<Case>) {
    Ordered(after) && forall p: nat :: OfPriority(after, p) == OfPriority(before, p)
  }

  function Insert(c: Case, sorted: seq<Case>): (r: seq<Case>)
    ensures |r| == |sorted| + 1
  {
    if sorted == [] || Priority(c.status) <= Priority(sorted[0].status) then [c] + sorted
    else [sorted[0]] + Insert(c, sorted[1..])
  }

  function Sort(cases: seq<Case>): (r: seq<Case>)
    ensures |r| == |cases|
  {
    if cases == [] then [] else Insert(cases[0], Sort(cases[1..]))
  }

  lemma {:induction false} InsertElements(c: Case, sorted: seq<Case>)
    ensures forall x :: x in Insert(c, sorted) <==> x == c || x in sorted
  {
    if sorted != [] && Priority(c.status) > Priority(sorted[0].status) {
      InsertElements(c, sorted[1..]);
      assert forall x :: x in sorted <==> x == sorted[0] || x in sorted[1..];
    }
  }

  lemma {:induction false} InsertKeepsOrder(c: Case, sorted: seq<Case>)
    requires Ordered(sorted)
    ensures Ordered(Insert(c, sorted))
  {
    if sorted != [] && Priority(c.status) > Priority(sorted[0].status) {
      InsertKeepsOrder(c, sorted[1..]);
      InsertElements(c, sorted[1..]);
      OrderedCons(sorted[0], Insert(c, sorted[1..]));
    } else {
      OrderedCons(c, sorted);
    }
  }

  lemma OrderedCons(c: Case, rest: seq<Case>)
    requires Ordered(rest)
    requires forall x :: x in rest ==> Priority(c.status) <= Priority(x.status)
    ensures Ordered([c] + rest)
  {
    var all := [c] + rest;
    forall i, j | 0 <= i < j < |all|
      ensures Priority(all[i].status) <= Priority(all[j].status)
    {
      assert all[j] == rest[j - 1] && rest[j - 1] in rest;
      if i > 0 {
        assert all[i] == rest[i - 1];
      }
    }
  }

  lemma {:induction false} InsertKeepsClasses(c: Case, sorted: seq<Case>, p: nat)
    ensures OfPriority(Insert(c, sorted), p) == (if Priority(c.status) == p then [c] else []) + OfPriority(sorted, p)
  {
    if sorted != [] && Priority(c.status) > Priority(sorted[0].status) {
      InsertKeepsClasses(c, sorted[1..], p);
    }
  }

  lemma {:induction false} SortIsStable(cases: seq<Case>)
    ensures IsStableSort(cases, Sort(cases))
  {
    if cases != [] {
      SortIsStable(cases[1..]);
      InsertKeepsOrder(cases[0], Sort(cases[1..]));
      forall p: nat
        ensures OfPriority(Sort(cases), p) == OfPriority(cases, p)
      {
        InsertKeepsClasses(cases[0], Sort(cases[1..]), p);
      }
    }
  }

  lemma {:induction false} OrderedIsClasses(cases: seq<Case>)
    requires Ordered(cases)
    ensures cases == OfPriority(cases, 0) + OfPriority(cases, 1) + OfPriority(cases, 2)
  {
    if cases != [] {
      var c, rest := cases[0], cases[1..];
      OrderedIsClasses(rest);
      assert forall x :: x in rest ==> Priority(c.status) <= Priority(x.status);
      if Priority(c.status) >= 1 {
        NoneOfPriority(rest, 0);
      }
      if Priority(c.status) >= 2 {
        NoneOfPriority(rest, 1);
      }
      ClassesOfCons(c, rest);
      assert cases == [c] + rest;
    }
  }

  lemma OfPriorityCons(c: Case, rest: seq<Case>, p: nat)
    ensures OfPriority([c] + rest, p) == (if Priority(c.status) == p then [c] else []) + OfPriority(rest, p)
  {
    assert ([c] + rest)[1..] == rest;
  }

  lemma JoinInFront<T>(c: T, p: nat, xs: seq<T>, ys: seq<T>, zs: seq<T>)
    requires p <= 2 && (p == 0 || (xs == [] && (p == 1 || ys == [])))
    ensures ((if p == 0 then [c] else []) + xs) + ((if p == 1 then [c] else []) + ys) + ((if p == 2 then [c] else []) + zs)
            == [c] + (xs + ys + zs)
  {
  }

  /** With nothing of a lower priority behind it, a case comes before the classes of the rest. */
  lemma ClassesOfCons(c: Case, rest: seq<Case>)
    requires Priority(c.status) >= 1 ==> OfPriority(rest, 0) == []
    requires Priority(c.status) >= 2 ==> OfPriority(rest, 1) == []
    ensures OfPriority([c] + rest, 0) + OfPriority([c] + rest, 1) + OfPriority([c] + rest, 2)
            == [c] + (OfPriority(rest, 0) + OfPriority(rest, 1) + OfPriority(rest, 2))
  {
    OfPriorityCons(c, rest, 0);
    OfPriorityCons(c, rest, 1);
    OfPriorityCons(c, rest, 2);
    JoinInFront(c, Priority(c.status), OfPriority(rest, 0), OfPriority(rest, 1), OfPriority(rest, 2));
  }

  lemma {:induction false} NoneOfPriority(cases: seq<Case>, p: nat)
    requires forall x :: x in cases ==> Priority(x.status) != p
    ensures OfPriority(cases, p) == []
  {
    if cases != [] {
      assert cases[0] in cases;
      NoneOfPriority(cases[1..], p);
    }
  }

  /** How often each case occurs is the same in the classes as in the whole. */
  lemma {:induction false} ClassesArePermutation(cases: seq<Case>)
    ensures multiset(OfPriority(cases, 0)) + multiset(OfPriority(cases, 1)) + multiset(OfPriority(cases, 2))
            == multiset(cases)
  {
    if cases != [] {
      var c, rest := cases[0], cases[1..];
      assert cases == [c] + rest;
      ClassesArePermutation(rest);
      OfPriorityCons(c, rest, 0);
      OfPriorityCons(c, rest, 1);
      OfPriorityCons(c, rest, 2);
    }
  }

  /** There is only one stable sort: problems, then skips, then passes, each in run order; it loses and
      invents nothing. */
  lemma StableSortIsUnique(before: seq<Case>, after: seq<Case>)
    requires IsStableSort(before, after)
    ensures after == OfPriority(before, 0) + OfPriority(before, 1) + OfPriority(before, 2)
    ensures after == Sort(before)
    ensures multiset(after) == multiset(before)
  {
    OrderedIsClasses(after);
    SortIsStable(before);
    OrderedIsClasses(Sort(before));
    ClassesArePermutation(before);
  }

  // ----- Counts -----

  function Count(cases: seq<Case>, s: Status): nat {
    if cases == [] then 0 else (if cases[0].status == s then 1 else 0) + Count(cases[1..], s)
  }

  function FailedCount(cases: seq<Case>): nat {
    Count(cases, Failed) + Count(cases, TimedOut)
  }

  lemma {:induction false} CountsAddUp(cases: seq<Case>)
    ensures Count(cases, Passed) + FailedCount(cases) + Count(cases, Skipped) + Count(cases, Interrupted) == |cases|
  {
    if cases != [] {
      CountsAddUp(cases[1..]);
    }
  }

  predicate OutcomePasses(cases: seq<Case>) {
    FailedCount(cases) == 0 && |cases| > 0 && Count(cases, Passed) == |cases|
  }

  /** A run passes exactly when it ran something and everything passed. */
  lemma OutcomePassesIff(cases: seq<Case>)
    ensures OutcomePasses(cases) <==> cases != [] && forall c :: c in cases ==> c.status.Passed?
  {
    CountsAddUp(cases);
    AllPassedIff(cases);
  }

  lemma {:induction false} AllPassedIff(cases: seq<Case>)
    ensures Count(cases, Passed) <= |cases|
    ensures Count(cases, Passed) == |cases| <==> forall c :: c in cases ==> c.status.Passed?
  {
    if cases != [] {
      AllPassedIff(cases[1..]);
      assert cases == [cases[0]] + cases[1..];
    }
  }

  // ----- The payload -----

  const MAX_TESTS_WITH_INLINE_CONTEXT := 1

  predicate IsFailure(s: Status) {
    s.Failed? || s.TimedOut?
  }

  function WithPath(attachments: seq<Attachment>): (r: seq<Attachment>)
    ensures forall a :: a in r ==> a.path.Some?
  {
    if attachments == [] then []
    else (if attachments[0].path.Some? then [attachments[0]] else []) + WithPath(attachments[1..])
  }

  function Shown(c: Case): seq<Attachment> {
    if IsFailure(c.status) then WithPath(c.attachments) else []
  }

  function FindByName(attachments: seq<Attachment>, name: string): Option<Attachment> {
    if attachments == [] then None
    else if attachments[0].name == Some(name) then Some(attachments[0])
    else FindByName(attachments[1..], name)
  }

  datatype Context = Context(content: string, truncated: bool)

  /** The outcome of reading each file, None where the read fails. */
  type Reader = string -> Option<Context>

  /** The context a case would get if the cap did not matter. */
  function ReadableContext(c: Case, read: Reader): Option<Context> {
    var a := FindByName(Shown(c), "error-context");
    if a.Some? && a.value.path.Some? then read(a.value.path.value) else None
  }

  function Readable(cases: seq<Case>, read: Reader): nat {
    if cases == [] then 0
    else Readable(cases[..|cases| - 1], read) + (if ReadableContext(cases[|cases| - 1], read).Some? then 1 else 0)
  }

  function AtMost(n: nat, cap: nat): nat {
    if n < cap then n else cap
  }

  /** The first failing tests with a readable context get it inlined, up to the cap. */
  function ContextFor(cases: seq<Case>, read: Reader, i: nat): Option<Context>
    requires i < |cases|
  {
    if Readable(cases[..i], read) < MAX_TESTS_WITH_INLINE_CONTEXT then ReadableContext(cases[i], read) else None
  }

  function StatusText(s: Status): (r: string)
    ensures r == "failed" <==> IsFailure(s)
  {
    match s
    case Passed => "passed"
    case Failed => "failed"
    case TimedOut => "failed"
    case Skipped => "skipped"
    case Interrupted => "interrupted"
  }

  function OptionalText(key: string, o: Option<string>): seq<Member> {
    if o.Some? then [Member(key, Str(o.value))] else []
  }

  function AttachmentJson(a: Attachment): Json {
    Obj(OptionalText("name", a.name) + OptionalText("contentType", a.contentType) + OptionalText("path", a.path))
  }

  function BoolJson(b: bool): Json {
    Raw(if b then "true" else "false")
  }

  function EntryBack(c: Case, context: Option<Context>): seq<Member> {
    (if context.Some?
     then [Member("context", Str(context.value.content)),
           Member("context_truncated", BoolJson(context.value.truncated))]
     else [])
    + (if Shown(c) != []
       then [Member("attachments", Arr(seq(|Shown(c)|, i requires 0 <= i < |Shown(c)| => AttachmentJson(Shown(c)[i]))))]
       else [])
  }

  function DurationField(c: Case): seq<Member> {
    if c.durationMs > 0 then [Member("durationMs", Raw(Text.Dec(c.durationMs)))] else []
  }

  function EntryRest(c: Case, context: Option<Context>): seq<Member> {
    DurationField(c) + OptionalText("error", c.error) + EntryBack(c, context)
  }

  function Entry(c: Case, context: Option<Context>): Json {
    Obj([Member("title", Str(c.title)), Member("file", Str(c.file)), Member("status", Str(StatusText(c.status)))]
        + EntryRest(c, context))
  }

  function EntryAt(cases: seq<Case>, read: Reader, i: nat): Json
    requires i < |cases|
  {
    Entry(cases[i], ContextFor(cases, read, i))
  }

  function EntriesTo(cases: seq<Case>, read: Reader, i: nat): (r: seq<Json>)
    requires i <= |cases|
    ensures |r| == i
    ensures forall j :: 0 <= j < i ==> r[j] == EntryAt(cases, read, j)
  {
    if i == 0 then [] else EntriesTo(cases, read, i - 1) + [EntryAt(cases, read, i - 1)]
  }

  function Entries(cases: seq<Case>, read: Reader): seq<Json> {
    EntriesTo(cases, read, |cases|)
  }

  method InlineContext(c: Case, read: Reader, inlinedCount: nat) returns (context: Option<Context>)
    ensures context == if inlinedCount < MAX_TESTS_WITH_INLINE_CONTEXT then ReadableContext(c, read) else None
  {
    context := None;
    if IsFailure(c.status) && Shown(c) != [] && inlinedCount < MAX_TESTS_WITH_INLINE_CONTEXT {
      var a := FindByName(Shown(c), "error-context");
      if a.Some? && a.value.path.Some? {
        context := read(a.value.path.value);
      }
    }
  }

  lemma ReadableStep(cases: seq<Case>, read: Reader, i: nat)
    requires i < |cases|
    ensures Readable(cases[..i + 1], read)
            == Readable(cases[..i], read) + if ReadableContext(cases[i], read).Some? then 1 else 0
  {
    assert cases[..i + 1][..i] == cases[..i];
  }

  method BuildEntries(cases: seq<Case>, read: Reader) returns (tests: seq<Json>, inlinedCount: nat)
    ensures tests == Entries(cases, read)
    ensures inlinedCount == AtMost(Readable(cases, read), MAX_TESTS_WITH_INLINE_CONTEXT)
  {
    tests, inlinedCount := [], 0;
    for i := 0 to |cases|
      invariant tests == EntriesTo(cases, read, i)
      invariant inlinedCount == AtMost(Readable(cases[..i], read), MAX_TESTS_WITH_INLINE_CONTEXT)
    {
      ReadableStep(cases, read, i);
      var context := InlineContext(cases[i], read, inlinedCount);
      assert Entry(cases[i], context) == EntryAt(cases, read, i);
      if context.Some? {
        inlinedCount := inlinedCount + 1;
      }
      tests := tests + [Entry(cases[i], context)];
    }
    assert cases[..|cases|] == cases;
  }

  /** The count of failures left without inlined context is never negative. */
  lemma {:induction false} ReadableAreFailures(cases: seq<Case>, read: Reader)
    ensures Readable(cases, read) <= FailedCount(cases)
  {
    if cases != [] {
      var n := |cases| - 1;
      ReadableAreFailures(cases[..n], read);
      assert cases == cases[..n] + [cases[n]];
      CountSnoc(cases[..n], cases[n], Failed);
      CountSnoc(cases[..n], cases[n], TimedOut);
    }
  }

  lemma {:induction false} CountSnoc(cases: seq<Case>, c: Case, s: Status)
    ensures Count(cases + [c], s) == Count(cases, s) + if c.status == s then 1 else 0
  {
    if cases == [] {
      assert cases + [c] == [c];
    } else {
      assert (cases + [c])[1..] == cases[1..] + [c];
      CountSnoc(cases[1..], c, s);
    }
  }

  /** The parts of the payload whose text this model does not spell out. */
  datatype Texts = Texts(durationSeconds: string, summary: string, note: (nat, nat) -> string)

  function NumberJson(n: nat): Json {
    Raw(Text.Dec(n))
  }

  function PayloadFront(cases: seq<Case>, inlined: nat, texts: Texts): (r: seq<Member>)
    ensures forall m :: m in r ==> m.key !in {"tests", "omitted_failures"}
  {
    [Member("view", Str("test-run")),
     Member("passed", NumberJson(Count(cases, Passed))),
     Member("failed", NumberJson(FailedCount(cases))),
     Member("skipped", NumberJson(Count(cases, Skipped))),
     Member("outcome", Str(if OutcomePasses(cases) then "pass" else "fail")),
     Member("duration_s", Raw(texts.durationSeconds)),
     Member("summary", Str(texts.summary))]
    + (if FailedCount(cases) > inlined
       then [Member("context_note", Str(texts.note(inlined, FailedCount(cases) - inlined)))]
       else [])
  }

  /** buildRunTestsPayload on the sorted cases of a run. */
  function Payload(cases: seq<Case>, read: Reader, texts: Texts): seq<Member> {
    PayloadFront(cases, AtMost(Readable(cases, read), MAX_TESTS_WITH_INLINE_CONTEXT), texts)
    + [Member("tests", Arr(Entries(cases, read)))]
  }
}
