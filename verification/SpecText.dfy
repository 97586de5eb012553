/** The text of a spec file: building one, and appending test cases to an existing one
    (apps/runtime-mcp/src/codegen/spec-writer.ts). */
module SpecText {
  import opened Option
  import opened Text
  import opened CodegenSchema
  import CodegenEmit

  function CallLine(b: BodyCall): string {
    "    await " + b.fixture + "." + b.call + "(" + Join(b.args, ", ") + ");"
  }

  function CallLines(body: seq<BodyCall>): seq<string> {
    seq(|body|, i requires 0 <= i < |body| => CallLine(body[i]))
  }

  function Fixtures(body: seq<BodyCall>): string {
    Join(CodegenEmit.FixtureNames(body), ", ")
  }

  function TestBlock(tc: TestCase): string {
    var testFn := if tc.annotation.Some? then "test." + tc.annotation.value else "test";
    Join(
      ["  // scenario: " + tc.scenario,
       "  " + testFn + "('" + tc.title + "', async ({ " + Fixtures(tc.body) + " }) => {"]
      + CallLines(tc.body)
      + ["  });"],
      "\n")
  }

  function BlockList(cases: seq<TestCase>): (r: seq<string>)
    ensures |r| == |cases|
  {
    seq(|cases|, i requires 0 <= i < |cases| => TestBlock(cases[i]))
  }

  function Blocks(cases: seq<TestCase>): string {
    Join(BlockList(cases), "\n\n")
  }

  function BeforeEachBlock(before: Option<seq<BodyCall>>): string {
    if before.None? || before.value == [] then ""
    else
      Join(
        ["", "  test.beforeEach(async ({ " + Fixtures(before.value) + " }) => {"]
        + CallLines(before.value)
        + ["  });"],
        "\n")
  }

  /** The lines before the test blocks; they do not depend on the cases. */
  function FrontLines(h: Host, s: Schema, feature: string): (lines: seq<string>)
    ensures lines != []
  {
    ["// spec: .vindicate/stories/" + feature + ".story.md",
     "import { test } from '@config/page.config';"]
    + (if HasExpectedData(s)
       then ["import { " + CodegenEmit.SpecImportName(h, feature) + " as expected } from '@config/page-loader';"]
       else [])
    + [if s.spec.storageState.Some? then "\ntest.use({ storageState: '" + s.spec.storageState.value + "' });\n" else "",
       "test.describe('" + s.spec.suite + "', () => {",
       BeforeEachBlock(s.spec.beforeEach),
       ""]
  }

  /** buildNewSpec */
  function Build(h: Host, s: Schema, feature: string): string {
    Join(FrontLines(h, s, feature) + [Blocks(s.spec.cases), "", "});", ""], "\n")
  }

  // ----- The closing of the describe block -----

  const CLOSE := "\n\n});"

  /** The pattern /\n\n\}\);\s*$/ matches s from position i. */
  predicate ClosesAt(s: string, i: nat) {
    && i + |CLOSE| <= |s|
    && s[i..i + |CLOSE|] == CLOSE
    && AllSpace(s[i + |CLOSE|..])
  }

  /** RegExp.exec: the first position at or after i where the pattern matches. */
  function FindClose(s: string, i: nat): (r: Option<nat>)
    requires i <= |s|
    ensures r.Some? ==> i <= r.value && ClosesAt(s, r.value)
    ensures r.Some? ==> forall k :: i <= k < r.value ==> !ClosesAt(s, k)
    ensures r.None? ==> forall k :: i <= k ==> !ClosesAt(s, k)
    decreases |s| - i
  {
    if ClosesAt(s, i) then Some(i)
    else if i == |s| then None
    else FindClose(s, i + 1)
  }

  datatype AppendError = NoClosing

  /** appendTestCases */
  function Append(content: string, cases: seq<TestCase>): (r: Result<string, AppendError>) {
    match FindClose(content, 0)
    case None => Err(NoClosing)
    case Some(i) => Ok(content[..i] + "\n\n" + Blocks(cases) + content[i..])
  }

  /** There is at most one place to append at. */
  lemma CloseIsUnique(s: string, i: nat, j: nat)
    requires ClosesAt(s, i) && ClosesAt(s, j)
    ensures i == j
  {
    if i < j {
      CloseIsLast(s, i, j);
    } else if j < i {
      CloseIsLast(s, j, i);
    }
  }

  lemma CloseIsLast(s: string, i: nat, j: nat)
    requires i < j && ClosesAt(s, i)
    ensures !ClosesAt(s, j)
  {
    if j + |CLOSE| <= |s| {
      assert s[i..i + 5][2] == s[i + 2] && s[i..i + 5][3] == s[i + 3] && s[i..i + 5][4] == s[i + 4];
      assert s[j..j + 5][0] == s[j] && s[j..j + 5][1] == s[j + 1] && s[j..j + 5][2] == s[j + 2];
      if j >= i + 5 {
        assert s[j + 2] == s[i + 5..][j + 2 - (i + 5)];
      }
    }
  }

  /** The pattern's match is where a text that is known to close there closes. */
  lemma FoundAt(s: string, i: nat)
    requires ClosesAt(s, i)
    ensures FindClose(s, 0) == Some(i)
  {
    CloseIsUnique(s, i, FindClose(s, 0).value);
  }

  /** Whatever precedes it, a text that starts with a match closes there. */
  lemma ClosesAfter(front: string, tail: string)
    requires ClosesAt(tail, 0)
    ensures ClosesAt(front + tail, |front|)
  {
    var s := front + tail;
    assert s[|front|..|front| + 5] == tail[0..5];
    assert s[|front| + 5..] == tail[5..];
  }

  // ----- Incremental equals batch -----

  lemma BlocksAppend(xs: seq<TestCase>, ys: seq<TestCase>)
    requires xs != [] && ys != []
    ensures Blocks(xs + ys) == Blocks(xs) + "\n\n" + Blocks(ys)
  {
    assert BlockList(xs + ys) == BlockList(xs) + BlockList(ys);
    JoinAppend(BlockList(xs), BlockList(ys), "\n\n");
  }

  /** Two lists of cases print like their concatenation with a blank line between exactly when neither is empty. */
  lemma BlocksAppendIff(xs: seq<TestCase>, ys: seq<TestCase>)
    ensures Blocks(xs + ys) == Blocks(xs) + "\n\n" + Blocks(ys) <==> xs != [] && ys != []
  {
    if xs == [] {
      assert xs + ys == ys;
    } else if ys == [] {
      assert xs + ys == xs;
    } else {
      BlocksAppend(xs, ys);
    }
  }

  lemma AppendAt(front: string, tail: string, cases: seq<TestCase>)
    requires ClosesAt(tail, 0)
    ensures Append(front + tail, cases) == Ok(front + "\n\n" + Blocks(cases) + tail)
  {
    ClosesAfter(front, tail);
    FoundAt(front + tail, |front|);
    assert (front + tail)[..|front|] == front && (front + tail)[|front|..] == tail;
  }

  lemma Between(front: string, x: string, y: string, tail: string)
    ensures front + x + tail == front + y + tail <==> x == y
  {
    var l, r := front + x + tail, front + y + tail;
    if l == r {
      assert |x| == |y|;
      assert l[|front|..|front| + |x|] == x;
      assert r[|front|..|front| + |y|] == y;
    }
  }

  /** Text that ends with printed cases grows to the text of all the cases exactly when none of the two
      lists is empty. */
  lemma GrowsIff(front: string, tail: string, xs: seq<TestCase>, ys: seq<TestCase>)
    requires ClosesAt(tail, 0)
    ensures Append(front + Blocks(xs) + tail, ys).Ok?
    ensures Append(front + Blocks(xs) + tail, ys) == Ok(front + Blocks(xs + ys) + tail) <==> xs != [] && ys != []
  {
    AppendAt(front + Blocks(xs), tail, ys);
    var glued := Blocks(xs) + "\n\n" + Blocks(ys);
    assert front + Blocks(xs) + "\n\n" + Blocks(ys) + tail == front + glued + tail;
    Between(front, Blocks(xs + ys), glued, tail);
    BlocksAppendIff(xs, ys);
  }

  /** Appending xs and then ys is appending their concatenation exactly when both are non-empty. */
  lemma AppendTwiceIff(content: string, xs: seq<TestCase>, ys: seq<TestCase>)
    requires Append(content, xs).Ok?
    ensures Append(Append(content, xs).value, ys) == Append(content, xs + ys) <==> xs != [] && ys != []
  {
    var i := FindClose(content, 0).value;
    var front, tail := content[..i], content[i..];
    assert content == front + tail;
    assert ClosesAt(tail, 0) by {
      assert tail[0..5] == content[i..i + 5] && tail[5..] == content[i + 5..];
    }
    AppendAt(front, tail, xs);
    AppendAt(front, tail, xs + ys);
    GrowsIff(front + "\n\n", tail, xs, ys);
  }

  function WithCases(s: Schema, cases: seq<TestCase>): Schema {
    s.(spec := s.spec.(cases := cases))
  }

  function Front(h: Host, s: Schema, feature: string): string {
    Join(FrontLines(h, s, feature), "\n") + "\n"
  }

  lemma FrontIgnoresCases(h: Host, s: Schema, cases: seq<TestCase>, feature: string)
    ensures Front(h, WithCases(s, cases), feature) == Front(h, s, feature)
  {
  }

  const TAIL := "\n\n});\n"

  lemma BuildShape(h: Host, s: Schema, feature: string)
    ensures Build(h, s, feature) == Front(h, s, feature) + Blocks(s.spec.cases) + TAIL
  {
    var back := [Blocks(s.spec.cases), "", "});", ""];
    JoinAppend(FrontLines(h, s, feature), back, "\n");
    var closing := ["", "});", ""];
    assert back[1..] == closing;
    assert closing[1..] == ["});", ""] && closing[1..][1..] == [""];
    assert Join(closing[1..], "\n") == "});\n";
    assert Join(closing, "\n") == "\n});\n";
    assert Join(back, "\n") == Blocks(s.spec.cases) + TAIL;
  }

  lemma TailCloses()
    ensures ClosesAt(TAIL, 0)
  {
    assert TAIL[0..5] == CLOSE;
    assert TAIL[5..] == "\n";
  }

  /** Appending to a freshly built spec gives the spec built from all the cases at once,
      exactly when neither list of cases is empty. */
  lemma AppendToBuiltIff(h: Host, s: Schema, feature: string, more: seq<TestCase>)
    ensures Append(Build(h, s, feature), more).Ok?
    ensures Append(Build(h, s, feature), more) == Ok(Build(h, WithCases(s, s.spec.cases + more), feature))
            <==> s.spec.cases != [] && more != []
  {
    var all := WithCases(s, s.spec.cases + more);
    BuildShape(h, s, feature);
    BuildShape(h, all, feature);
    FrontIgnoresCases(h, s, s.spec.cases + more, feature);
    TailCloses();
    GrowsIff(Front(h, s, feature), TAIL, s.spec.cases, more);
  }

  /** A spec file that grows by one batch of cases after another. */
  function AppendAll(content: string, batches: seq<seq<TestCase>>): Result<string, AppendError>
    decreases |batches|
  {
    if batches == [] then Ok(content)
    else
      match Append(content, batches[0])
      case Err(e) => Err(e)
      case Ok(grown) => AppendAll(grown, batches[1..])
  }

  function Flatten(batches: seq<seq<TestCase>>): seq<TestCase> {
    if batches == [] then [] else batches[0] + Flatten(batches[1..])
  }

  lemma AppendAllStep(content: string, batches: seq<seq<TestCase>>, grown: string)
    requires batches != [] && Append(content, batches[0]) == Ok(grown)
    ensures AppendAll(content, batches) == AppendAll(grown, batches[1..])
  {
  }

  lemma CasesCompose(s: Schema, batches: seq<seq<TestCase>>)
    requires batches != []
    ensures var next := WithCases(s, s.spec.cases + batches[0]);
            WithCases(next, next.spec.cases + Flatten(batches[1..])) == WithCases(s, s.spec.cases + Flatten(batches))
  {
    assert s.spec.cases + batches[0] + Flatten(batches[1..]) == s.spec.cases + (batches[0] + Flatten(batches[1..]));
  }

  /** However the cases are cut into non-empty batches, growing the file never fails and ends at the text of
      one build. */
  lemma {:induction false} IncrementalEqualsBatch(h: Host, s: Schema, feature: string, batches: seq<seq<TestCase>>)
    requires s.spec.cases != []
    requires forall b :: b in batches ==> b != []
    ensures AppendAll(Build(h, s, feature), batches)
            == Ok(Build(h, WithCases(s, s.spec.cases + Flatten(batches)), feature))
    decreases |batches|
  {
    if batches == [] {
      assert s.spec.cases + Flatten(batches) == s.spec.cases;
      assert WithCases(s, s.spec.cases) == s;
    } else {
      var next := WithCases(s, s.spec.cases + batches[0]);
      assert batches[0] in batches && forall b :: b in batches[1..] ==> b in batches;
      AppendToBuiltIff(h, s, feature, batches[0]);
      AppendAllStep(Build(h, s, feature), batches, Build(h, next, feature));
      IncrementalEqualsBatch(h, next, feature, batches[1..]);
      CasesCompose(s, batches);
    }
  }
}
