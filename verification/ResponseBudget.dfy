/** Trimming a run_tests payload to a character cap (apps/runtime-mcp/src/mcp/response-budget.ts). */
module ResponseBudget {
  import opened Option
  import opened Json
  import opened RunReport
  import Text

  type Summary = (nat, nat) -> string

  const RUN_TESTS_CAP := 10000

  /** The text of the run_tests summary. */
  function RunTestsSummary(shown: nat, total: nat): string {
    "Showing first " + Text.Dec(shown) + " of " + Text.Dec(total)
    + " chars. Open the HTML report locally for full failure details."
  }

  predicate Fits(members: seq<Member>, cap: nat) {
    Size(members) <= cap
  }

  // ----- The trimmed payload -----

  /** buildTrimResult */
  function TrimResult(payload: seq<Member>, tests: seq<Json>, kept: nat, summary: Summary): seq<Member>
    requires kept <= |tests|
  {
    var shown := Arr(tests[..kept]);
    var base := Put(payload, "tests", Arr([]));
    var withTests := Put(payload, "tests", shown);
    var withSummary := Put(withTests, "truncation_summary",
                           Str(summary(Size(Put(base, "tests", shown)), Size(payload))));
    Put(Put(withSummary, "tests_total", NumberJson(|tests|)), "tests_shown", NumberJson(kept))
  }

  /** What is weighed with the first kept tests: the payload itself when nothing is cut. */
  function Candidate(payload: seq<Member>, tests: seq<Json>, kept: nat, summary: Summary): seq<Member>
    requires kept <= |tests|
  {
    if kept == |tests| then payload else TrimResult(payload, tests, kept, summary)
  }

  /** The first line of a text, cut to 150 characters. */
  function OneLine(text: string): string {
    var line := text[..Text.IndexOfChar(text, '\n')];
    if |line| > 150 then line[..150] else line
  }

  function Present(key: string, value: Option<Json>): seq<Member> {
    if value.Some? then [Member(key, value.value)] else []
  }

  function ErrorLine(error: Option<Json>): seq<Member> {
    if error.Some? && error.value.Str? && OneLine(error.value.value) != []
    then [Member("error", Str(OneLine(error.value.value)))]
    else []
  }

  /** toOmittedFailureEntry: something only for an object whose status is "failed". */
  function OmittedEntry(test: Json): Option<Json> {
    if test.Obj? && Get(test.members, "status") == Some(Str("failed"))
    then Some(Obj(Present("title", Get(test.members, "title")) + Present("file", Get(test.members, "file"))
                  + ErrorLine(Get(test.members, "error"))))
    else None
  }

  function Omitted(tests: seq<Json>): seq<Json> {
    if tests == [] then []
    else (match OmittedEntry(tests[0]) case Some(e) => [e] case None => []) + Omitted(tests[1..])
  }

  function WithIndex(result: seq<Member>, entries: seq<Json>): seq<Member> {
    if entries == [] then result else Put(result, "omitted_failures", Arr(entries))
  }

  // ----- What the trimmer looks for -----

  predicate KeptFits(payload: seq<Member>, tests: seq<Json>, cap: nat, summary: Summary, kept: nat) {
    kept <= |tests| && Fits(Candidate(payload, tests, kept, summary), cap)
  }

  /** The first kept tests fit, and no more of them do. */
  ghost predicate LargestFit(payload: seq<Member>, tests: seq<Json>, cap: nat, summary: Summary, kept: nat) {
    && KeptFits(payload, tests, cap, summary, kept)
    && forall j :: kept < j <= |tests| ==> !KeptFits(payload, tests, cap, summary, j)
  }

  ghost predicate NothingFits(payload: seq<Member>, tests: seq<Json>, cap: nat, summary: Summary) {
    forall j :: 0 <= j <= |tests| ==> !KeptFits(payload, tests, cap, summary, j)
  }

  predicate IndexFits(result: seq<Member>, entries: seq<Json>, cap: nat, m: nat) {
    m <= |entries| && Fits(WithIndex(result, entries[..m]), cap)
  }

  /** The index holds the longest prefix of the entries that fits, if any does. */
  ghost predicate LongestIndex(result: seq<Member>, entries: seq<Json>, cap: nat, m: nat) {
    && m <= |entries|
    && (m == 0 || IndexFits(result, entries, cap, m))
    && forall j :: m < j <= |entries| ==> !IndexFits(result, entries, cap, j)
  }

  ghost predicate IndexedResult(r: seq<Member>, result: seq<Member>, entries: seq<Json>, cap: nat) {
    exists m: nat :: LongestIndex(result, entries, cap, m) && r == WithIndex(result, entries[..m])
  }

  /** The second loop: entries are popped from the end until the payload fits. */
  method AddIndex(result: seq<Member>, entries: seq<Json>, cap: nat) returns (r: seq<Member>)
    ensures IndexedResult(r, result, entries, cap)
  {
    var omitted := entries;
    while omitted != []
      invariant |omitted| <= |entries| && omitted == entries[..|omitted|]
      invariant forall j :: |omitted| < j <= |entries| ==> !IndexFits(result, entries, cap, j)
    {
      var candidate := Put(result, "omitted_failures", Arr(omitted));
      if Size(candidate) <= cap {
        assert IndexFits(result, entries, cap, |omitted|);
        assert LongestIndex(result, entries, cap, |omitted|);
        return candidate;
      }
      assert !IndexFits(result, entries, cap, |omitted|);
      omitted := omitted[..|omitted| - 1];
    }
    assert LongestIndex(result, entries, cap, 0);
    r := result;
  }

  /** slice(kept) of a list, where kept is -1 when the scan found nothing: the last element then. */
  function CutFrom(tests: seq<Json>, kept: int): seq<Json>
    requires -1 <= kept <= |tests|
  {
    if kept >= 0 then tests[kept..] else if tests == [] then [] else tests[|tests| - 1..]
  }

  ghost predicate IsLargest(fits: nat -> bool, k: nat, n: nat) {
    k <= n && fits(k) && forall j :: k < j <= n ==> !fits(j)
  }

  /** The reverse scan: the largest number that fits, or -1. */
  method ScanDown(fits: nat -> bool, n: nat) returns (kept: int)
    ensures -1 <= kept <= n
    ensures kept >= 0 ==> IsLargest(fits, kept, n)
    ensures kept < 0 ==> forall j: nat :: j <= n ==> !fits(j)
  {
    kept := n;
    while kept >= 0
      invariant -1 <= kept <= n
      invariant forall j: nat :: kept < j <= n ==> !fits(j)
      decreases kept
    {
      if fits(kept) {
        break;
      }
      kept := kept - 1;
    }
  }

  method ScanKept(payload: seq<Member>, tests: seq<Json>, cap: nat, summary: Summary) returns (kept: int)
    ensures -1 <= kept <= |tests|
    ensures kept >= 0 ==> LargestFit(payload, tests, cap, summary, kept)
    ensures kept < 0 ==> NothingFits(payload, tests, cap, summary)
  {
    var fits := (k: nat) => KeptFits(payload, tests, cap, summary, k);
    kept := ScanDown(fits, |tests|);
    forall j: nat | kept < j <= |tests|
      ensures !KeptFits(payload, tests, cap, summary, j)
    {
      assert !fits(j);
    }
    if kept >= 0 {
      assert fits(kept);
    }
  }

  /** A payload without a list of tests, or one that fits, is returned as it is. Otherwise the result keeps
      as many tests as fit and indexes the longest prefix of the cut failures that fits; when not even
      zero tests fit, nothing is cut. */
  method TrimRunTests(payload: seq<Member>, cap: nat, summary: Summary) returns (r: seq<Member>)
    ensures !(Get(payload, "tests").Some? && Get(payload, "tests").value.Arr?) ==> r == payload
    ensures Fits(payload, cap) ==> r == payload
    ensures Get(payload, "tests").Some? && Get(payload, "tests").value.Arr? && !Fits(payload, cap) ==>
              var tests := Get(payload, "tests").value.items;
              && (forall kept: nat :: LargestFit(payload, tests, cap, summary, kept) ==>
                    IndexedResult(r, TrimResult(payload, tests, kept, summary), Omitted(tests[kept..]), cap))
              && (NothingFits(payload, tests, cap, summary) ==>
                    IndexedResult(r, payload, Omitted(CutFrom(tests, -1)), cap))
  {
    var field := Get(payload, "tests");
    if field.None? || !field.value.Arr? {
      return payload;
    }
    var tests := field.value.items;
    var kept := ScanKept(payload, tests, cap, summary);
    if kept >= |tests| {
      return payload;
    }
    var result := if kept >= 0 then TrimResult(payload, tests, kept, summary) else payload;
    assert !KeptFits(payload, tests, cap, summary, |tests|);
    r := AddIndex(result, Omitted(CutFrom(tests, kept)), cap);
  }

  // ----- What follows -----

  lemma {:induction false} LargestBelow(fits: nat -> bool, n: nat)
    requires exists j: nat :: j <= n && fits(j)
    ensures exists k :: IsLargest(fits, k, n)
  {
    if fits(n) {
      assert IsLargest(fits, n, n);
    } else {
      LargestBelow(fits, n - 1);
      var k :| IsLargest(fits, k, n - 1);
      assert IsLargest(fits, k, n);
    }
  }

  /** There is a largest fit unless nothing fits. */
  lemma LargestFitExists(payload: seq<Member>, tests: seq<Json>, cap: nat, summary: Summary)
    requires !NothingFits(payload, tests, cap, summary)
    ensures exists kept: nat :: LargestFit(payload, tests, cap, summary, kept)
  {
    var fits := (k: nat) => KeptFits(payload, tests, cap, summary, k);
    var some: nat :| some <= |tests| && KeptFits(payload, tests, cap, summary, some);
    assert fits(some);
    LargestBelow(fits, |tests|);
    var k: nat :| IsLargest(fits, k, |tests|);
    forall j: nat | k < j <= |tests|
      ensures !KeptFits(payload, tests, cap, summary, j)
    {
      assert !fits(j);
    }
    assert LargestFit(payload, tests, cap, summary, k);
  }

  lemma IndexGrows(payload: seq<Member>, entries: seq<Json>)
    requires Get(payload, "omitted_failures").None?
    ensures Size(payload) <= Size(WithIndex(payload, entries))
  {
    if entries != [] {
      NewKeyGrows(payload, "omitted_failures", Arr(entries));
    }
  }

  /** A payload that does not fit fits no better with an index added to it. */
  lemma NoIndexOnUncut(r: seq<Member>, payload: seq<Member>, entries: seq<Json>, cap: nat)
    requires IndexedResult(r, payload, entries, cap)
    requires Get(payload, "omitted_failures").None? && !Fits(payload, cap)
    ensures r == payload
  {
    var m: nat :| LongestIndex(payload, entries, cap, m) && r == WithIndex(payload, entries[..m]);
    IndexGrows(payload, entries[..m]);
  }

  lemma IndexKeepsFit(r: seq<Member>, result: seq<Member>, entries: seq<Json>, cap: nat)
    requires IndexedResult(r, result, entries, cap) && Fits(result, cap)
    ensures Fits(r, cap)
  {
    var m: nat :| LongestIndex(result, entries, cap, m) && r == WithIndex(result, entries[..m]);
  }

  /** The number of tests that is kept: the largest that fits, and all of them when no number does. */
  ghost predicate Kept(payload: seq<Member>, tests: seq<Json>, kept: nat) {
    || LargestFit(payload, tests, RUN_TESTS_CAP, RunTestsSummary, kept)
    || (kept == |tests| && NothingFits(payload, tests, RUN_TESTS_CAP, RunTestsSummary))
  }

  ghost predicate Trimmed(r: seq<Member>, payload: seq<Member>, tests: seq<Json>, kept: nat) {
    && Kept(payload, tests, kept)
    && IndexedResult(r, Candidate(payload, tests, kept, RunTestsSummary), Omitted(tests[kept..]), RUN_TESTS_CAP)
  }

  lemma UncutIsTrimmed(payload: seq<Member>, tests: seq<Json>)
    requires Kept(payload, tests, |tests|)
    ensures Trimmed(payload, payload, tests, |tests|)
  {
    assert LongestIndex(payload, [], RUN_TESTS_CAP, 0);
  }

  /** applyResponseBudget for run_tests: the response fits exactly when the payload does or some cut of it,
      down to no tests at all, does, and then keeps the largest number of tests that fits and the longest
      index that fits with them; otherwise the payload is left alone. */
  method ApplyRunTestsBudget(payload: seq<Member>, tests: seq<Json>) returns (r: seq<Member>)
    requires Get(payload, "tests") == Some(Arr(tests))
    requires Get(payload, "omitted_failures").None?
    ensures Fits(r, RUN_TESTS_CAP)
            <==> exists kept: nat :: KeptFits(payload, tests, RUN_TESTS_CAP, RunTestsSummary, kept)
    ensures !Fits(r, RUN_TESTS_CAP) ==> r == payload
    ensures exists kept: nat :: Trimmed(r, payload, tests, kept)
  {
    if Size(payload) <= RUN_TESTS_CAP {
      assert KeptFits(payload, tests, RUN_TESTS_CAP, RunTestsSummary, |tests|);
      UncutIsTrimmed(payload, tests);
      return payload;
    }
    r := TrimRunTests(payload, RUN_TESTS_CAP, RunTestsSummary);
    assert !KeptFits(payload, tests, RUN_TESTS_CAP, RunTestsSummary, |tests|);
    if NothingFits(payload, tests, RUN_TESTS_CAP, RunTestsSummary) {
      NoIndexOnUncut(r, payload, Omitted(CutFrom(tests, -1)), RUN_TESTS_CAP);
      UncutIsTrimmed(payload, tests);
    } else {
      LargestFitExists(payload, tests, RUN_TESTS_CAP, RunTestsSummary);
      ghost var kept: nat :| LargestFit(payload, tests, RUN_TESTS_CAP, RunTestsSummary, kept);
      IndexKeepsFit(r, TrimResult(payload, tests, kept, RunTestsSummary), Omitted(tests[kept..]), RUN_TESTS_CAP);
      assert Trimmed(r, payload, tests, kept);
    }
  }

  // ----- The whole pipeline -----

  lemma FourPuts(ms: seq<Member>, k: seq<string>, v: seq<Json>, key: string)
    requires |k| == |v| == 4
    ensures Get(Put(Put(Put(Put(ms, k[0], v[0]), k[1], v[1]), k[2], v[2]), k[3], v[3]), key)
            == if key == k[3] then Some(v[3])
               else if key == k[2] then Some(v[2])
               else if key == k[1] then Some(v[1])
               else if key == k[0] then Some(v[0])
               else Get(ms, key)
  {
    var a := Put(ms, k[0], v[0]);
    var b := Put(a, k[1], v[1]);
    var c := Put(b, k[2], v[2]);
    PutThenGet(ms, k[0], v[0], key);
    PutThenGet(a, k[1], v[1], key);
    PutThenGet(b, k[2], v[2], key);
    PutThenGet(c, k[3], v[3], key);
  }

  lemma TrimResultField(payload: seq<Member>, tests: seq<Json>, kept: nat, summary: Summary, key: string)
    requires kept <= |tests|
    ensures var r := Get(TrimResult(payload, tests, kept, summary), key);
            && (key == "tests" ==> r == Some(Arr(tests[..kept])))
            && (key == "tests_total" ==> r == Some(NumberJson(|tests|)))
            && (key == "tests_shown" ==> r == Some(NumberJson(kept)))
            && (key !in {"tests", "tests_total", "tests_shown", "truncation_summary"} ==> r == Get(payload, key))
  {
    var shown := Arr(tests[..kept]);
    var text := Str(summary(Size(Put(Put(payload, "tests", Arr([])), "tests", shown)), Size(payload)));
    FourPuts(payload, ["tests", "truncation_summary", "tests_total", "tests_shown"],
             [shown, text, NumberJson(|tests|), NumberJson(kept)], key);
  }

  /** What the response says: the shown tests are the first ones, both totals are right, every other
      field is the payload's, and the index is there when it has an entry. */
  lemma TrimmedFields(payload: seq<Member>, tests: seq<Json>, kept: nat, summary: Summary, entries: seq<Json>, key: string)
    requires kept <= |tests|
    ensures var r := Get(WithIndex(TrimResult(payload, tests, kept, summary), entries), key);
            && (key == "tests" ==> r == Some(Arr(tests[..kept])))
            && (key == "tests_total" ==> r == Some(NumberJson(|tests|)))
            && (key == "tests_shown" ==> r == Some(NumberJson(kept)))
            && (key == "omitted_failures" && entries != [] ==> r == Some(Arr(entries)))
            && (key !in {"tests", "tests_total", "tests_shown", "truncation_summary", "omitted_failures"} ==>
                  r == Get(payload, key))
  {
    TrimResultField(payload, tests, kept, summary, key);
    PutThenGet(TrimResult(payload, tests, kept, summary), "omitted_failures", Arr(entries), key);
  }

  /** In a run's payload no skipped or passed test is shown while a problem is cut. */
  lemma ProblemsAreShownFirst(before: seq<Case>, after: seq<Case>, kept: nat, i: nat, j: nat)
    requires IsStableSort(before, after)
    requires i < kept <= j < |after|
    requires Problem(after[j].status)
    ensures Problem(after[i].status)
  {
    assert Priority(after[i].status) <= Priority(after[j].status);
  }

  function FailedEntry(c: Case): Json {
    Obj([Member("title", Str(c.title)), Member("file", Str(c.file))]
        + ErrorLine(if c.error.Some? then Some(Str(c.error.value)) else None))
  }

  /** The index entries of the failed and timed-out cases, in order. */
  function FailedEntries(cases: seq<Case>): seq<Json> {
    if cases == [] then []
    else (if IsFailure(cases[0].status) then [FailedEntry(cases[0])] else []) + FailedEntries(cases[1..])
  }

  lemma {:induction false} SkipOthers(front: seq<Member>, rest: seq<Member>, key: string)
    requires forall m :: m in front ==> m.key != key
    ensures Get(front + rest, key) == Get(rest, key)
  {
    if front == [] {
      assert front + rest == rest;
    } else {
      assert front[0] in front;
      assert (front + rest)[1..] == front[1..] + rest;
      SkipOthers(front[1..], rest, key);
    }
  }

  lemma HeadFields(title: Json, file: Json, status: Json, rest: seq<Member>)
    ensures var ms := [Member("title", title), Member("file", file), Member("status", status)] + rest;
            && Get(ms, "title") == Some(title)
            && Get(ms, "file") == Some(file)
            && Get(ms, "status") == Some(status)
            && Get(ms, "error") == Get(rest, "error")
  {
    var ms := [Member("title", title), Member("file", file), Member("status", status)] + rest;
    assert ms[1..] == [Member("file", file), Member("status", status)] + rest;
    assert ms[1..][1..] == [Member("status", status)] + rest;
    assert ms[1..][1..][1..] == rest;
    assert Get(ms[1..][1..], "status") == Some(status) && Get(ms[1..][1..], "error") == Get(rest, "error");
    assert Get(ms[1..], "file") == Some(file);
  }

  lemma ErrorField(front: seq<Member>, error: Option<string>, back: seq<Member>)
    requires forall m :: m in front + back ==> m.key != "error"
    ensures Get(front + OptionalText("error", error) + back, "error")
            == if error.Some? then Some(Str(error.value)) else None
  {
    assert front + OptionalText("error", error) + back == front + (OptionalText("error", error) + back);
    SkipOthers(front, OptionalText("error", error) + back, "error");
    if error.None? {
      assert OptionalText("error", error) + back == back;
      assert forall m :: m in back ==> m in front + back;
    }
  }

  lemma OtherKeys(c: Case, context: Option<Context>)
    ensures forall m :: m in DurationField(c) + EntryBack(c, context) ==> m.key != "error"
  {
    assert "durationMs"[0] == 'd' && "context"[0] == 'c' && "context_truncated"[0] == 'c' && "attachments"[0] == 'a';
    assert forall m :: m in DurationField(c) ==> m.key[0] == 'd';
    assert forall m :: m in EntryBack(c, context) ==> m.key[0] == 'c' || m.key[0] == 'a';
  }

  lemma RestError(c: Case, context: Option<Context>)
    ensures Get(EntryRest(c, context), "error") == if c.error.Some? then Some(Str(c.error.value)) else None
  {
    OtherKeys(c, context);
    ErrorField(DurationField(c), c.error, EntryBack(c, context));
  }

  lemma EntryFields(c: Case, context: Option<Context>)
    ensures var ms := Entry(c, context).members;
            && Get(ms, "title") == Some(Str(c.title))
            && Get(ms, "file") == Some(Str(c.file))
            && Get(ms, "status") == Some(Str(StatusText(c.status)))
            && Get(ms, "error") == if c.error.Some? then Some(Str(c.error.value)) else None
  {
    RestError(c, context);
    HeadFields(Str(c.title), Str(c.file), Str(StatusText(c.status)), EntryRest(c, context));
  }

  lemma OmittedEntryOf(ms: seq<Member>, c: Case)
    requires Get(ms, "title") == Some(Str(c.title)) && Get(ms, "file") == Some(Str(c.file))
    requires Get(ms, "status") == Some(Str(StatusText(c.status)))
    requires Get(ms, "error") == if c.error.Some? then Some(Str(c.error.value)) else None
    ensures OmittedEntry(Obj(ms)) == if IsFailure(c.status) then Some(FailedEntry(c)) else None
  {
    assert [Member("title", Str(c.title))] + [Member("file", Str(c.file))]
           == [Member("title", Str(c.title)), Member("file", Str(c.file))];
  }

  lemma EntryIsIndexedIff(c: Case, context: Option<Context>)
    ensures OmittedEntry(Entry(c, context)) == if IsFailure(c.status) then Some(FailedEntry(c)) else None
  {
    EntryFields(c, context);
    OmittedEntryOf(Entry(c, context).members, c);
  }

  /** Every cut failure or time-out, and nothing else, is offered to the index, in the order of the run. */
  lemma {:induction false} CutFailuresAreIndexed(cases: seq<Case>, read: Reader, kept: nat)
    requires kept <= |cases|
    ensures Omitted(Entries(cases, read)[kept..]) == FailedEntries(cases[kept..])
    decreases |cases| - kept
  {
    if kept < |cases| {
      CutFailuresAreIndexed(cases, read, kept + 1);
      var tests, cut := Entries(cases, read)[kept..], cases[kept..];
      assert tests[1..] == Entries(cases, read)[kept + 1..];
      assert cut[1..] == cases[kept + 1..];
      assert tests[0] == EntryAt(cases, read, kept);
      EntryIsIndexedIff(cases[kept], ContextFor(cases, read, kept));
    }
  }

  /** The payload of a run meets what ApplyRunTestsBudget asks for. */
  lemma PayloadFields(cases: seq<Case>, read: Reader, texts: Texts)
    ensures Get(Payload(cases, read, texts), "tests") == Some(Arr(Entries(cases, read)))
    ensures Get(Payload(cases, read, texts), "omitted_failures").None?
  {
    var front := PayloadFront(cases, AtMost(Readable(cases, read), MAX_TESTS_WITH_INLINE_CONTEXT), texts);
    SkipOthers(front, [Member("tests", Arr(Entries(cases, read)))], "tests");
  }

  /** What a response says. It shows the first kept cases, the largest number that fits; a shown case is a problem
      if a cut one is; and the index names the first m of the cut failures, the most that fit, or is left out. */
  ghost predicate Response(r: seq<Member>, cases: seq<Case>, read: Reader, texts: Texts, kept: nat, m: nat) {
    var payload, tests := Payload(cases, read, texts), Entries(cases, read);
    && kept <= |cases|
    && Kept(payload, tests, kept)
    && LongestIndex(Candidate(payload, tests, kept, RunTestsSummary), FailedEntries(cases[kept..]), RUN_TESTS_CAP, m)
    && Get(r, "tests") == Some(Arr(tests[..kept]))
    && (forall i, j :: 0 <= i < kept <= j < |cases| && Problem(cases[j].status) ==> Problem(cases[i].status))
    && Get(r, "omitted_failures") == (if m == 0 then None else Some(Arr(FailedEntries(cases[kept..])[..m])))
  }

  lemma TrimmedIsResponse(r: seq<Member>, before: seq<Case>, after: seq<Case>, read: Reader, texts: Texts, kept: nat)
    returns (m: nat)
    requires IsStableSort(before, after)
    requires Trimmed(r, Payload(after, read, texts), Entries(after, read), kept)
    ensures Response(r, after, read, texts, kept, m)
  {
    var payload, tests := Payload(after, read, texts), Entries(after, read);
    PayloadFields(after, read, texts);
    CutFailuresAreIndexed(after, read, kept);
    forall i, j | 0 <= i < kept <= j < |after| && Problem(after[j].status)
      ensures Problem(after[i].status)
    {
      ProblemsAreShownFirst(before, after, kept, i, j);
    }
    var entries := FailedEntries(after[kept..]);
    m :| LongestIndex(Candidate(payload, tests, kept, RunTestsSummary), entries, RUN_TESTS_CAP, m)
         && r == WithIndex(Candidate(payload, tests, kept, RunTestsSummary), entries[..m]);
    if kept == |tests| {
      assert tests[..kept] == tests && after[kept..] == [];
    } else {
      ResponseFields(r, payload, tests, kept, entries, m);
    }
  }

  lemma ResponseFields(r: seq<Member>, payload: seq<Member>, tests: seq<Json>, kept: nat, entries: seq<Json>, m: nat)
    requires kept < |tests| && m <= |entries|
    requires r == WithIndex(TrimResult(payload, tests, kept, RunTestsSummary), entries[..m])
    requires Get(payload, "omitted_failures").None?
    ensures Get(r, "tests") == Some(Arr(tests[..kept]))
    ensures Get(r, "omitted_failures") == if m == 0 then None else Some(Arr(entries[..m]))
  {
    TrimmedFields(payload, tests, kept, RunTestsSummary, entries[..m], "tests");
    TrimmedFields(payload, tests, kept, RunTestsSummary, entries[..m], "omitted_failures");
    TrimResultField(payload, tests, kept, RunTestsSummary, "omitted_failures");
  }

  method BuildPayload(cases: seq<Case>, read: Reader, texts: Texts) returns (payload: seq<Member>)
    ensures payload == Payload(cases, read, texts)
  {
    var tests, inlined := BuildEntries(cases, read);
    payload := PayloadFront(cases, inlined, texts) + [Member("tests", Arr(tests))];
  }

  /** The budget applied to the payload of a sorted run. */
  method Respond(before: seq<Case>, after: seq<Case>, read: Reader, texts: Texts) returns (r: seq<Member>)
    requires IsStableSort(before, after)
    ensures exists kept: nat, m: nat :: Response(r, after, read, texts, kept, m)
    ensures Fits(r, RUN_TESTS_CAP) || r == Payload(after, read, texts)
  {
    var payload := BuildPayload(after, read, texts);
    PayloadFields(after, read, texts);
    r := ApplyRunTestsBudget(payload, Entries(after, read));
    ghost var kept: nat :| Trimmed(r, payload, Entries(after, read), kept);
    ghost var m := TrimmedIsResponse(r, before, after, read, texts, kept);
  }

  /** From the suites of a report to the response: walk, failed-first sort, payload, budget. */
  method RunTests(suites: seq<Suite>, read: Reader, texts: Texts) returns (r: seq<Member>)
    ensures exists kept: nat, m: nat :: Response(r, Sort(SuitesCases(suites, "")), read, texts, kept, m)
    ensures Fits(r, RUN_TESTS_CAP) || r == Payload(Sort(SuitesCases(suites, "")), read, texts)
  {
    var collector := new Collector();
    collector.WalkSuites(suites, "");
    var walked := collector.testCases;
    assert walked == SuitesCases(suites, "");
    SortIsStable(walked);
    r := Respond(walked, Sort(walked), read, texts);
  }
}
