/** The schema checker (apps/runtime-mcp/src/codegen/validate-codegen.ts): the rules, stated
    declaratively as "this schema breaks rule c somewhere", and the methods that walk a schema and
    collect one error per offence. An error is kept as its rule code. */
module CodegenChecker {
  import opened Option
  import opened CodegenSchema
  import opened CodegenLocator
  import Text

  datatype Code =
    | DuplicateElementRef | FieldNameCollision | GhostElementRef | DynamicRefArgs | InvalidExpression
    | FillValueParamExclusive | UnknownStepParam | DuplicateStepName | DuplicateVerifyName
    | LocatorMissing | ContainerIgnored | DynamicPlaceholderMismatch | PanelHasPath | PageMissingPath
    | OwnedByMismatch | EmptyExpectedBlock | ExpectedBlockMissing | UnknownExpectedKey
    | UnknownFixture | UnknownBodyCall | BodyCallArgCount | InvalidBodyCallArg | DuplicateAcId
    | SecretInStepValue | MalformedUrlGlob | BaseUrlUnsafeGlob | QuotedEnvVarArg
    | UseExpectedForTestData | InlineTestDataWithExpectedBlock | DuplicateExpectedValue
    | WaitMissingObserved | WaitDocPlaceholder | WaitUnobservedEndpoint | MissingAcPrefix

  // ----- The rules of a page -----

  /** One mention of an element, with the arguments passed to it. */
  datatype Use = Use(ref: string, args: seq<string>)

  function ActionUses(a: Action): seq<Use> {
    match a
    case Input(_, ref, args, _, _) => [Use(ref, args)]
    case Point(_, ref, args) => [Use(ref, args)]
    case Drag(ref, args, toRef, toArgs, _) => [Use(ref, args), Use(toRef, toArgs)]
    case _ => []
  }

  function AssertionUses(a: Assertion): seq<Use> {
    if a.OnElement? then [Use(a.ref, a.refArgs)] else []
  }

  predicate AllValid(h: Host, args: seq<string>) {
    forall arg :: arg in args ==> h.validExpr(arg)
  }

  predicate UseBreaks(h: Host, page: Page, u: Use, c: Code) {
    var el := ElementByRef(page.elements, u.ref);
    match c
    case GhostElementRef => el.None?
    case DynamicRefArgs => el.Some? && |u.args| != |el.value.dynParams|
    case InvalidExpression => el.Some? && IsDynamic(el.value) && !AllValid(h, u.args)
    case _ => false
  }

  predicate HasParam(params: seq<Param>, name: string) {
    exists p :: p in params && p.name == name
  }

  predicate ActionBreaks(h: Host, page: Page, step: StepDef, a: Action, c: Code) {
    || (exists u :: u in ActionUses(a) && UseBreaks(h, page, u, c))
    || match c
       case FillValueParamExclusive => a.Input? && a.value.Some? == a.param.Some?
       case UnknownStepParam =>
         a.Input? && a.value.None? && a.param.Some? && !HasParam(step.params, a.param.value)
       case SecretInStepValue =>
         a.Input? && a.value.Some? && (h.patterns.credentialRef(a.ref) || h.patterns.emailValue(a.value.value))
       case MalformedUrlGlob => a.WaitForURL? && h.patterns.malformedGlob(a.pattern)
       case _ => false
  }

  predicate AssertionBreaks(h: Host, page: Page, a: Assertion, c: Code) {
    || (exists u :: u in AssertionUses(a) && UseBreaks(h, page, u, c))
    || (c == InvalidExpression && Filled(a.arg) && !h.validExpr(a.arg.value))
    || (c == MalformedUrlGlob && UrlLiteral(h, a).Some? && h.patterns.malformedGlob(UrlLiteral(h, a).value))
    || (c == BaseUrlUnsafeGlob && UrlLiteral(h, a).Some? && h.patterns.baseUrlUnsafe(UrlLiteral(h, a).value))
  }

  /** The string literal that a toHaveURL assertion compares with. */
  function UrlLiteral(h: Host, a: Assertion): Option<string> {
    if a.OnPage? && a.matcher == "toHaveURL" && Filled(a.arg) then h.patterns.stringLiteral(a.arg.value) else None
  }

  predicate StepBreaks(h: Host, page: Page, step: StepDef, c: Code) {
    exists a :: a in step.actions && ActionBreaks(h, page, step, a, c)
  }

  predicate VerifyBreaks(h: Host, page: Page, v: VerifyDef, c: Code) {
    exists a :: a in v.assertions && AssertionBreaks(h, page, a, c)
  }

  predicate Repeats(names: seq<string>) {
    exists i, j :: 0 <= i < j < |names| && names[i] == names[j]
  }

  function StepNames(page: Page): seq<string> {
    seq(|page.steps|, i requires 0 <= i < |page.steps| => page.steps[i].name)
  }

  function VerifyNames(page: Page): seq<string> {
    seq(|page.verifies|, i requires 0 <= i < |page.verifies| => page.verifies[i].name)
  }

  /** Every declared dynamic parameter is used as a placeholder and every placeholder is declared; a
      static element has none. */
  predicate PlaceholdersMatch(el: Element) {
    var used := SlotHoles(CheckedSlot(el));
    if !IsDynamic(el) then used == []
    else
      && used != []
      && (forall p :: p in el.dynParams ==> p.name in used)
      && (forall name :: name in used ==> HasParam(el.dynParams, name))
  }

  predicate ElementBreaks(el: Element, c: Code) {
    match c
    case LocatorMissing => DeriveLocator(el).Err?
    case ContainerIgnored => el.locator.Some? && el.locator.value.container.Some? && el.locator.value.strategy != Scoped
    case DynamicPlaceholderMismatch => !PlaceholdersMatch(el)
    case _ => false
  }

  predicate PageBreaks(h: Host, page: Page, c: Code) {
    || (c == DuplicateElementRef && Repeats(Refs(page.elements)))
    || (c == FieldNameCollision && Repeats(FieldNames(h, page.elements)))
    || (exists st :: st in page.steps && StepBreaks(h, page, st, c))
    || (exists v :: v in page.verifies && VerifyBreaks(h, page, v, c))
    || (c == DuplicateStepName && Repeats(StepNames(page)))
    || (c == DuplicateVerifyName && Repeats(VerifyNames(page)))
    || (exists el :: el in page.elements && ElementBreaks(el, c))
    || (c == PanelHasPath && page.isPanel && page.path.Some?)
    || (c == PageMissingPath && !page.isPanel && page.path.None?)
  }

  // ----- The rules across pages and spec -----

  function CasesCalls(cases: seq<TestCase>): seq<BodyCall> {
    if cases == [] then [] else cases[0].body + CasesCalls(cases[1..])
  }

  function SpecCalls(s: Schema): seq<BodyCall> {
    (if s.spec.beforeEach.Some? then s.spec.beforeEach.value else []) + CasesCalls(s.spec.cases)
  }

  /** Map.set in page order: the last page with a fixture name wins. */
  function LastPage(h: Host, pages: seq<Page>, fixture: string): (r: Option<Page>)
    ensures r.Some? ==> r.value in pages && FixtureName(h, r.value.pageClass) == fixture
    ensures r.None? ==> forall p :: p in pages ==> FixtureName(h, p.pageClass) != fixture
  {
    if pages == [] then None
    else
      var n := |pages| - 1;
      assert pages == pages[..n] + [pages[n]];
      if FixtureName(h, pages[n].pageClass) == fixture then Some(pages[n]) else LastPage(h, pages[..n], fixture)
  }

  /** pageMethods: the number of parameters of a method, a verify shadowing a step of the same name. */
  function MethodArity(page: Page, call: string): Option<nat> {
    match LastVerify(page.verifies, call)
    case Some(v) => Some(|v.params|)
    case None =>
      match LastStep(page.steps, call)
      case Some(st) => Some(|st.params|)
      case None => None
  }

  function LastStep(steps: seq<StepDef>, name: string): (r: Option<StepDef>)
    ensures r.Some? ==> r.value in steps && r.value.name == name
    ensures r.None? ==> forall x :: x in steps ==> x.name != name
  {
    if steps == [] then None
    else
      var n := |steps| - 1;
      assert steps == steps[..n] + [steps[n]];
      if steps[n].name == name then Some(steps[n]) else LastStep(steps[..n], name)
  }

  function LastVerify(verifies: seq<VerifyDef>, name: string): (r: Option<VerifyDef>)
    ensures r.Some? ==> r.value in verifies && r.value.name == name
    ensures r.None? ==> forall x :: x in verifies ==> x.name != name
  {
    if verifies == [] then None
    else
      var n := |verifies| - 1;
      assert verifies == verifies[..n] + [verifies[n]];
      if verifies[n].name == name then Some(verifies[n]) else LastVerify(verifies[..n], name)
  }

  predicate CallBreaks(h: Host, s: Schema, b: BodyCall, c: Code) {
    var page := FindPage(h, s.pages, b.fixture);
    if page.None? then c == UnknownFixture
    else
      var arity := MethodArity(page.value, b.call);
      if arity.None? then c == UnknownBodyCall
      else
        || (c == BodyCallArgCount && |b.args| != arity.value)
        || (c == InvalidBodyCallArg && !AllValid(h, b.args))
        || (c == QuotedEnvVarArg && exists e :: e in b.args && h.patterns.quotedEnv(Text.Trim(e)))
  }

  predicate OwnerBreaks(h: Host, s: Schema, feature: string, b: BodyCall) {
    var page := LastPage(h, s.pages, b.fixture);
    page.Some? && page.value.ownedBy != feature
  }

  /** A string literal that is not a URL path. */
  predicate InlineString(h: Host, e: string) {
    var literal := h.patterns.stringLiteral(Text.Trim(e));
    literal.Some? && !("/" <= literal.value)
  }

  predicate InlineRegex(h: Host, e: string) {
    h.patterns.regexLiteral(Text.Trim(e))
  }

  /** What an inline literal is compared with: the regex as written, the string unquoted. */
  function InlineText(h: Host, e: string): Option<string> {
    if InlineRegex(h, e) then Some(Text.Trim(e)) else h.patterns.stringLiteral(Text.Trim(e))
  }

  predicate RepeatsExpected(h: Host, s: Schema, e: string) {
    s.expected.Some? && InlineText(h, e).Some?
    && exists entry :: entry in s.expected.value && entry.text == InlineText(h, e)
  }

  predicate ExprBreaks(h: Host, s: Schema, e: string, c: Code) {
    match c
    case ExpectedBlockMissing => s.expected.None? && h.expectedKeys(e) != []
    case UnknownExpectedKey =>
      s.expected.Some? && exists k :: k in h.expectedKeys(e) && k !in ExpectedKeys(s).value
    case UseExpectedForTestData => (InlineString(h, e) || InlineRegex(h, e)) && !HasExpectedData(s)
    case InlineTestDataWithExpectedBlock =>
      (InlineString(h, e) || InlineRegex(h, e)) && HasExpectedData(s) && RepeatsExpected(h, s, e)
    case _ => false
  }

  predicate VerifyExprBreaks(h: Host, s: Schema, v: VerifyDef, c: Code) {
    exists a :: a in v.assertions && Filled(a.arg) && ExprBreaks(h, s, a.arg.value, c)
  }

  predicate PageExprBreaks(h: Host, s: Schema, page: Page, c: Code) {
    exists v :: v in page.verifies && VerifyExprBreaks(h, s, v, c)
  }

  predicate CallExprBreaks(h: Host, s: Schema, b: BodyCall, c: Code) {
    exists e :: e in b.args && ExprBreaks(h, s, e, c)
  }

  function AcIds(s: Schema): seq<string> {
    seq(|s.spec.cases|, i requires 0 <= i < |s.spec.cases| => s.spec.cases[i].acId)
  }

  function TextsOf(entries: seq<ExpectedEntry>): seq<string> {
    if entries == [] then []
    else (if entries[0].text.Some? then [entries[0].text.value] else []) + TextsOf(entries[1..])
  }

  /** The string values of the expected record. */
  function ExpectedTexts(s: Schema): seq<string> {
    if s.expected.Some? then TextsOf(s.expected.value) else []
  }

  function ActionWaits(actions: seq<Action>): seq<string> {
    if actions == [] then []
    else (if actions[0].WaitForResponse? then [actions[0].urlPattern] else []) + ActionWaits(actions[1..])
  }

  function StepWaits(steps: seq<StepDef>): seq<string> {
    if steps == [] then [] else ActionWaits(steps[0].actions) + StepWaits(steps[1..])
  }

  /** The URL patterns of all waitForResponse actions, in schema order. */
  function Waits(pages: seq<Page>): seq<string> {
    if pages == [] then [] else StepWaits(pages[0].steps) + Waits(pages[1..])
  }

  const DOCUMENTATION_PATTERNS := ["/auth/validate", "/api/login"]

  predicate Observed(s: Schema, pattern: string) {
    exists endpoint :: endpoint in s.observedEndpoints && Text.Contains(endpoint, pattern)
  }

  predicate WaitBreaks(s: Schema, pattern: string, c: Code) {
    !Observed(s, pattern)
    && c == if pattern in DOCUMENTATION_PATTERNS then WaitDocPlaceholder else WaitUnobservedEndpoint
  }

  predicate SomeWaitBreaks(s: Schema, c: Code) {
    if s.observedEndpoints == [] then c == WaitMissingObserved && Waits(s.pages) != []
    else exists w :: w in Waits(s.pages) && WaitBreaks(s, w, c)
  }

  predicate HasAcPrefix(tc: TestCase) {
    "[" + tc.acId + "]" <= tc.title
  }

  predicate SomePageBreaks(h: Host, s: Schema, c: Code) {
    exists p :: p in s.pages && PageBreaks(h, p, c)
  }

  predicate SomePageExprBreaks(h: Host, s: Schema, c: Code) {
    exists p :: p in s.pages && PageExprBreaks(h, s, p, c)
  }

  predicate SomeCallBreaks(h: Host, s: Schema, c: Code) {
    exists b :: b in SpecCalls(s) && CallBreaks(h, s, b, c)
  }

  predicate SomeCallExprBreaks(h: Host, s: Schema, c: Code) {
    exists b :: b in SpecCalls(s) && CallExprBreaks(h, s, b, c)
  }

  predicate SomeOwnerBreaks(h: Host, s: Schema, feature: string) {
    exists b :: b in SpecCalls(s) && OwnerBreaks(h, s, feature, b)
  }

  predicate SchemaBreaks(h: Host, s: Schema, feature: string, c: Code) {
    || SomePageBreaks(h, s, c)
    || (c == OwnedByMismatch && SomeOwnerBreaks(h, s, feature))
    || (c == EmptyExpectedBlock && s.expected == Some([]))
    || SomePageExprBreaks(h, s, c)
    || SomeCallExprBreaks(h, s, c)
    || SomeCallBreaks(h, s, c)
    || (c == DuplicateAcId && Repeats(AcIds(s)))
    || (c == DuplicateExpectedValue && Repeats(ExpectedTexts(s)))
    || SomeWaitBreaks(s, c)
    || (c == MissingAcPrefix && exists tc :: tc in s.spec.cases && !HasAcPrefix(tc))
  }

  /** A schema is well typed when no rule is broken anywhere. */
  ghost predicate WellTyped(h: Host, s: Schema, feature: string) {
    forall c :: !SchemaBreaks(h, s, feature, c)
  }

  // ----- Collecting over a list -----

  /** The list holds exactly the rules that some item breaks. */
  ghost predicate Reports<T(!new)>(errors: seq<Code>, items: seq<T>, breaks: (T, Code) -> bool) {
    forall c :: c in errors <==> exists x :: x in items && breaks(x, c)
  }

  lemma ReportsMore<T(!new)>(errors: seq<Code>, more: seq<Code>, items: seq<T>, i: nat, breaks: (T, Code) -> bool)
    requires i < |items| && Reports(errors, items[..i], breaks)
    requires forall c :: c in more <==> breaks(items[i], c)
    ensures Reports(errors + more, items[..i + 1], breaks)
  {
    assert items[..i + 1] == items[..i] + [items[i]];
  }

  lemma ReportsAll<T(!new)>(errors: seq<Code>, items: seq<T>, breaks: (T, Code) -> bool)
    requires Reports(errors, items[..|items|], breaks)
    ensures Reports(errors, items, breaks)
  {
    assert items[..|items|] == items;
  }

  lemma InAnyOf(c: Code, p: seq<Code>, q: seq<Code>, r: seq<Code>, s: seq<Code>, t: seq<Code>,
                u: seq<Code>, v: seq<Code>, w: seq<Code>, x: seq<Code>)
    ensures c in p + q + r + s + t + u + v + w + x <==>
            c in p || c in q || c in r || c in s || c in t || c in u || c in v || c in w || c in x
  {
  }

  lemma EmptyIff(errors: seq<Code>)
    ensures errors == [] <==> forall c :: c !in errors
  {
    if errors != [] {
      assert errors[0] in errors;
    }
  }

  // ----- The walk over a page -----

  method CollectRepeats(names: seq<string>, code: Code) returns (errors: seq<Code>)
    ensures forall c :: c in errors <==> c == code && Repeats(names)
  {
    errors := [];
    var seen: set<string> := {};
    for i := 0 to |names|
      invariant forall x :: x in seen <==> x in names[..i]
      invariant forall c :: c in errors <==> c == code && Repeats(names[..i])
    {
      if names[i] in seen {
        errors := errors + [code];
        var k :| 0 <= k < i && names[..i][k] == names[i];
        assert names[..i + 1][k] == names[..i + 1][i];
      }
      seen := seen + {names[i]};
      assert names[..i + 1] == names[..i] + [names[i]];
    }
    assert names[..|names|] == names;
  }

  method CollectRefArgsErrors(h: Host, page: Page, u: Use) returns (errors: seq<Code>)
    ensures forall c :: c in errors <==> (c == DynamicRefArgs || c == InvalidExpression) && UseBreaks(h, page, u, c)
  {
    errors := [];
    var el := ElementByRef(page.elements, u.ref);
    if el.None? {
      return;
    }
    var dynCount := |el.value.dynParams|;
    if dynCount == 0 {
      if |u.args| > 0 {
        errors := [DynamicRefArgs];
      }
      return;
    }
    if |u.args| != dynCount {
      errors := [DynamicRefArgs];
    }
    for i := 0 to |u.args|
      invariant DynamicRefArgs in errors <==> |u.args| != dynCount
      invariant InvalidExpression in errors <==> !AllValid(h, u.args[..i])
      invariant forall c :: c in errors ==> c == DynamicRefArgs || c == InvalidExpression
    {
      assert u.args[..i + 1] == u.args[..i] + [u.args[i]];
      if !h.validExpr(u.args[i]) {
        errors := errors + [InvalidExpression];
      }
    }
    assert u.args[..|u.args|] == u.args;
  }

  method CollectUseErrors(h: Host, page: Page, u: Use) returns (errors: seq<Code>)
    ensures forall c :: c in errors <==> UseBreaks(h, page, u, c)
  {
    errors := [];
    if ElementByRef(page.elements, u.ref).None? {
      errors := [GhostElementRef];
    }
    var more := CollectRefArgsErrors(h, page, u);
    errors := errors + more;
  }

  method CollectActionErrors(h: Host, page: Page, step: StepDef, a: Action) returns (errors: seq<Code>)
    ensures forall c :: c in errors <==> ActionBreaks(h, page, step, a, c)
  {
    errors := [];
    var uses := ActionUses(a);
    for i := 0 to |uses|
      invariant forall c :: c in errors <==> exists u :: u in uses[..i] && UseBreaks(h, page, u, c)
    {
      var more := CollectUseErrors(h, page, uses[i]);
      errors := errors + more;
      assert uses[..i + 1] == uses[..i] + [uses[i]];
    }
    assert uses[..|uses|] == uses;
    if a.Input? {
      if a.value.Some? == a.param.Some? {
        errors := errors + [FillValueParamExclusive];
      } else if a.param.Some? && !HasParam(step.params, a.param.value) {
        errors := errors + [UnknownStepParam];
      }
      if a.value.Some? && (h.patterns.credentialRef(a.ref) || h.patterns.emailValue(a.value.value)) {
        errors := errors + [SecretInStepValue];
      }
    }
    if a.WaitForURL? && h.patterns.malformedGlob(a.pattern) {
      errors := errors + [MalformedUrlGlob];
    }
  }

  method CollectAssertionErrors(h: Host, page: Page, a: Assertion) returns (errors: seq<Code>)
    ensures forall c :: c in errors <==> AssertionBreaks(h, page, a, c)
  {
    errors := [];
    if a.OnElement? {
      errors := CollectUseErrors(h, page, Use(a.ref, a.refArgs));
      assert AssertionUses(a) == [Use(a.ref, a.refArgs)];
    }
    if Filled(a.arg) {
      if !h.validExpr(a.arg.value) {
        errors := errors + [InvalidExpression];
      }
      if a.OnPage? && a.matcher == "toHaveURL" {
        var literal := h.patterns.stringLiteral(a.arg.value);
        if literal.Some? && h.patterns.malformedGlob(literal.value) {
          errors := errors + [MalformedUrlGlob];
        }
        if literal.Some? && h.patterns.baseUrlUnsafe(literal.value) {
          errors := errors + [BaseUrlUnsafeGlob];
        }
      }
    }
  }

  method CollectStepErrors(h: Host, page: Page, step: StepDef) returns (errors: seq<Code>)
    ensures forall c :: c in errors <==> StepBreaks(h, page, step, c)
  {
    errors := [];
    for i := 0 to |step.actions|
      invariant forall c :: c in errors <==> exists a :: a in step.actions[..i] && ActionBreaks(h, page, step, a, c)
    {
      var more := CollectActionErrors(h, page, step, step.actions[i]);
      errors := errors + more;
      assert step.actions[..i + 1] == step.actions[..i] + [step.actions[i]];
    }
    assert step.actions[..|step.actions|] == step.actions;
  }

  method CollectVerifyErrors(h: Host, page: Page, v: VerifyDef) returns (errors: seq<Code>)
    ensures forall c :: c in errors <==> VerifyBreaks(h, page, v, c)
  {
    errors := [];
    for i := 0 to |v.assertions|
      invariant forall c :: c in errors <==> exists a :: a in v.assertions[..i] && AssertionBreaks(h, page, a, c)
    {
      var more := CollectAssertionErrors(h, page, v.assertions[i]);
      errors := errors + more;
      assert v.assertions[..i + 1] == v.assertions[..i] + [v.assertions[i]];
    }
    assert v.assertions[..|v.assertions|] == v.assertions;
  }

  method CollectMethodErrors(h: Host, page: Page) returns (errors: seq<Code>)
    ensures forall c :: c in errors <==>
            || (exists st :: st in page.steps && StepBreaks(h, page, st, c))
            || (exists v :: v in page.verifies && VerifyBreaks(h, page, v, c))
  {
    var steps: seq<Code> := [];
    for i := 0 to |page.steps|
      invariant forall c :: c in steps <==> exists st :: st in page.steps[..i] && StepBreaks(h, page, st, c)
    {
      var more := CollectStepErrors(h, page, page.steps[i]);
      steps := steps + more;
      assert page.steps[..i + 1] == page.steps[..i] + [page.steps[i]];
    }
    assert page.steps[..|page.steps|] == page.steps;
    var verifies: seq<Code> := [];
    for i := 0 to |page.verifies|
      invariant forall c :: c in verifies <==> exists v :: v in page.verifies[..i] && VerifyBreaks(h, page, v, c)
    {
      var more := CollectVerifyErrors(h, page, page.verifies[i]);
      verifies := verifies + more;
      assert page.verifies[..i + 1] == page.verifies[..i] + [page.verifies[i]];
    }
    assert page.verifies[..|page.verifies|] == page.verifies;
    errors := steps + verifies;
  }

  method CollectElementErrors(els: seq<Element>) returns (errors: seq<Code>)
    ensures forall c :: c in errors <==> exists el :: el in els && ElementBreaks(el, c)
  {
    errors := [];
    for i := 0 to |els|
      invariant forall c :: c in errors <==> exists el :: el in els[..i] && ElementBreaks(el, c)
    {
      var el := els[i];
      var found := if DeriveLocator(el).Err? then [LocatorMissing] else [];
      if el.locator.Some? && el.locator.value.container.Some? && el.locator.value.strategy != Scoped {
        found := found + [ContainerIgnored];
      }
      if !PlaceholdersMatch(el) {
        found := found + [DynamicPlaceholderMismatch];
      }
      assert forall c :: c in found <==> ElementBreaks(el, c);
      errors := errors + found;
      assert els[..i + 1] == els[..i] + [el];
    }
    assert els[..|els|] == els;
  }

  method CollectPageErrors(h: Host, page: Page) returns (errors: seq<Code>)
    ensures forall c :: c in errors <==> PageBreaks(h, page, c)
  {
    var refs := CollectRepeats(Refs(page.elements), DuplicateElementRef);
    var names := CollectRepeats(FieldNames(h, page.elements), FieldNameCollision);
    var methods := CollectMethodErrors(h, page);
    var stepNames := CollectRepeats(StepNames(page), DuplicateStepName);
    var verifyNames := CollectRepeats(VerifyNames(page), DuplicateVerifyName);
    var elements := CollectElementErrors(page.elements);
    var panel := if page.isPanel && page.path.Some? then [PanelHasPath] else [];
    var path := if !page.isPanel && page.path.None? then [PageMissingPath] else [];
    errors := refs + names + methods + stepNames + verifyNames + elements + panel + path;
    forall c ensures c in errors <==> PageBreaks(h, page, c) {
      InAnyOf(c, refs, names, methods, stepNames, verifyNames, elements, panel, path, []);
    }
  }

  // ----- The walk over the schema -----

  method CollectReferenceErrors(h: Host, s: Schema, e: string) returns (errors: seq<Code>)
    ensures forall c :: c in errors <==> (c == ExpectedBlockMissing || c == UnknownExpectedKey) && ExprBreaks(h, s, e, c)
  {
    errors := [];
    var keys := h.expectedKeys(e);
    for i := 0 to |keys|
      invariant ExpectedBlockMissing in errors <==> s.expected.None? && i > 0
      invariant UnknownExpectedKey in errors <==>
                s.expected.Some? && exists k :: k in keys[..i] && k !in ExpectedKeys(s).value
      invariant forall c :: c in errors ==> c == ExpectedBlockMissing || c == UnknownExpectedKey
    {
      if s.expected.None? {
        errors := errors + [ExpectedBlockMissing];
      } else if keys[i] !in ExpectedKeys(s).value {
        errors := errors + [UnknownExpectedKey];
      }
      assert keys[..i + 1] == keys[..i] + [keys[i]];
    }
    assert keys[..|keys|] == keys;
  }

  /** tryDetectInlineTestData */
  method DetectInlineTestData(h: Host, s: Schema, e: string) returns (errors: seq<Code>)
    ensures forall c :: c in errors <==>
              (c == UseExpectedForTestData || c == InlineTestDataWithExpectedBlock) && ExprBreaks(h, s, e, c)
  {
    errors := [];
    if !InlineString(h, e) && !InlineRegex(h, e) {
      return;
    }
    if !HasExpectedData(s) {
      return [UseExpectedForTestData];
    }
    if RepeatsExpected(h, s, e) {
      errors := [InlineTestDataWithExpectedBlock];
    }
  }

  method CollectExprErrors(h: Host, s: Schema, e: string) returns (errors: seq<Code>)
    ensures forall c :: c in errors <==> ExprBreaks(h, s, e, c)
  {
    errors := CollectReferenceErrors(h, s, e);
    var inline := DetectInlineTestData(h, s, e);
    errors := errors + inline;
  }

  method CollectVerifyExprErrors(h: Host, s: Schema, v: VerifyDef) returns (errors: seq<Code>)
    ensures forall c :: c in errors <==> VerifyExprBreaks(h, s, v, c)
  {
    errors := [];
    for i := 0 to |v.assertions|
      invariant forall c :: c in errors <==>
                exists a :: a in v.assertions[..i] && Filled(a.arg) && ExprBreaks(h, s, a.arg.value, c)
    {
      assert v.assertions[..i + 1] == v.assertions[..i] + [v.assertions[i]];
      if Filled(v.assertions[i].arg) {
        var more := CollectExprErrors(h, s, v.assertions[i].arg.value);
        errors := errors + more;
      }
    }
    assert v.assertions[..|v.assertions|] == v.assertions;
  }

  method CollectPageExprErrors(h: Host, s: Schema, page: Page) returns (errors: seq<Code>)
    ensures forall c :: c in errors <==> PageExprBreaks(h, s, page, c)
  {
    errors := [];
    for i := 0 to |page.verifies|
      invariant forall c :: c in errors <==> exists v :: v in page.verifies[..i] && VerifyExprBreaks(h, s, v, c)
    {
      var more := CollectVerifyExprErrors(h, s, page.verifies[i]);
      errors := errors + more;
      assert page.verifies[..i + 1] == page.verifies[..i] + [page.verifies[i]];
    }
    assert page.verifies[..|page.verifies|] == page.verifies;
  }

  method CollectArgExprErrors(h: Host, s: Schema, b: BodyCall) returns (errors: seq<Code>)
    ensures forall c :: c in errors <==> CallExprBreaks(h, s, b, c)
  {
    errors := [];
    for i := 0 to |b.args|
      invariant forall c :: c in errors <==> exists e :: e in b.args[..i] && ExprBreaks(h, s, e, c)
    {
      var more := CollectExprErrors(h, s, b.args[i]);
      errors := errors + more;
      assert b.args[..i + 1] == b.args[..i] + [b.args[i]];
    }
    assert b.args[..|b.args|] == b.args;
  }

  method CollectBodyCallErrors(h: Host, s: Schema, b: BodyCall) returns (errors: seq<Code>)
    ensures forall c :: c in errors <==> CallBreaks(h, s, b, c)
  {
    var page := FindPage(h, s.pages, b.fixture);
    if page.None? {
      return [UnknownFixture];
    }
    var arity := MethodArity(page.value, b.call);
    if arity.None? {
      return [UnknownBodyCall];
    }
    errors := if |b.args| != arity.value then [BodyCallArgCount] else [];
    ghost var first := errors;
    for i := 0 to |b.args|
      invariant forall c :: c in errors <==>
                  || c in first
                  || (c == InvalidBodyCallArg && !AllValid(h, b.args[..i]))
                  || (c == QuotedEnvVarArg && exists e :: e in b.args[..i] && h.patterns.quotedEnv(Text.Trim(e)))
    {
      assert b.args[..i + 1] == b.args[..i] + [b.args[i]];
      if h.patterns.quotedEnv(Text.Trim(b.args[i])) {
        errors := errors + [QuotedEnvVarArg];
      }
      if !h.validExpr(b.args[i]) {
        errors := errors + [InvalidBodyCallArg];
      }
    }
    assert b.args[..|b.args|] == b.args;
  }

  /** A Map from fixture names to pages, filled in page order: the last page with a name wins. */
  method PagesByFixture(h: Host, pages: seq<Page>) returns (pageByFixture: map<string, Page>)
    ensures forall f :: LastPage(h, pages, f) == if f in pageByFixture then Some(pageByFixture[f]) else None
  {
    pageByFixture := map[];
    for i := 0 to |pages|
      invariant forall f :: LastPage(h, pages[..i], f) ==
                            if f in pageByFixture then Some(pageByFixture[f]) else None
    {
      pageByFixture := pageByFixture[FixtureName(h, pages[i].pageClass) := pages[i]];
      assert pages[..i + 1][..i] == pages[..i];
    }
    assert pages[..|pages|] == pages;
  }

  method CollectOwnedByErrors(h: Host, s: Schema, feature: string) returns (errors: seq<Code>)
    ensures forall c :: c in errors <==> c == OwnedByMismatch && SomeOwnerBreaks(h, s, feature)
  {
    errors := [];
    var pageByFixture := PagesByFixture(h, s.pages);
    var calls := SpecCalls(s);
    ghost var breaks := (b: BodyCall, c: Code) => c == OwnedByMismatch && OwnerBreaks(h, s, feature, b);
    for i := 0 to |calls|
      invariant Reports(errors, calls[..i], breaks)
    {
      var f := calls[i].fixture;
      var found := if f in pageByFixture && pageByFixture[f].ownedBy != feature then [OwnedByMismatch] else [];
      assert OwnerBreaks(h, s, feature, calls[i]) <==> f in pageByFixture && pageByFixture[f].ownedBy != feature;
      ReportsMore(errors, found, calls, i, breaks);
      errors := errors + found;
    }
    ReportsAll(errors, calls, breaks);
  }

  method CollectSpecExprErrors(h: Host, s: Schema) returns (errors: seq<Code>)
    ensures forall c :: c in errors <==> SomeCallExprBreaks(h, s, c)
  {
    errors := [];
    var calls := SpecCalls(s);
    ghost var breaks := (b: BodyCall, c: Code) => CallExprBreaks(h, s, b, c);
    for i := 0 to |calls|
      invariant Reports(errors, calls[..i], breaks)
    {
      var more := CollectArgExprErrors(h, s, calls[i]);
      ReportsMore(errors, more, calls, i, breaks);
      errors := errors + more;
    }
    ReportsAll(errors, calls, breaks);
  }

  method CollectSpecCallErrors(h: Host, s: Schema) returns (errors: seq<Code>)
    ensures forall c :: c in errors <==> SomeCallBreaks(h, s, c)
  {
    errors := [];
    var calls := SpecCalls(s);
    ghost var breaks := (b: BodyCall, c: Code) => CallBreaks(h, s, b, c);
    for i := 0 to |calls|
      invariant Reports(errors, calls[..i], breaks)
    {
      var more := CollectBodyCallErrors(h, s, calls[i]);
      ReportsMore(errors, more, calls, i, breaks);
      errors := errors + more;
    }
    ReportsAll(errors, calls, breaks);
  }

  method CollectPagesErrors(h: Host, s: Schema) returns (structural: seq<Code>, exprs: seq<Code>)
    ensures forall c :: c in structural <==> SomePageBreaks(h, s, c)
    ensures forall c :: c in exprs <==> SomePageExprBreaks(h, s, c)
  {
    structural, exprs := [], [];
    for i := 0 to |s.pages|
      invariant forall c :: c in structural <==> exists p :: p in s.pages[..i] && PageBreaks(h, p, c)
      invariant forall c :: c in exprs <==> exists p :: p in s.pages[..i] && PageExprBreaks(h, s, p, c)
    {
      var more := CollectPageErrors(h, s.pages[i]);
      structural := structural + more;
      more := CollectPageExprErrors(h, s, s.pages[i]);
      exprs := exprs + more;
      assert s.pages[..i + 1] == s.pages[..i] + [s.pages[i]];
    }
    assert s.pages[..|s.pages|] == s.pages;
  }

  method CollectWaitForResponseErrors(s: Schema) returns (errors: seq<Code>)
    ensures forall c :: c in errors <==> SomeWaitBreaks(s, c)
  {
    errors := [];
    var waits := Waits(s.pages);
    if waits == [] {
      return;
    }
    if s.observedEndpoints == [] {
      return [WaitMissingObserved];
    }
    for i := 0 to |waits|
      invariant forall c :: c in errors <==> exists w :: w in waits[..i] && WaitBreaks(s, w, c)
    {
      if !Observed(s, waits[i]) {
        var code := if waits[i] in DOCUMENTATION_PATTERNS then WaitDocPlaceholder else WaitUnobservedEndpoint;
        assert WaitBreaks(s, waits[i], code);
        errors := errors + [code];
      }
      assert waits[..i + 1] == waits[..i] + [waits[i]];
    }
    assert waits[..|waits|] == waits;
  }

  method CollectTitlePrefixErrors(cases: seq<TestCase>) returns (errors: seq<Code>)
    ensures forall c :: c in errors <==> c == MissingAcPrefix && exists tc :: tc in cases && !HasAcPrefix(tc)
  {
    errors := [];
    for i := 0 to |cases|
      invariant forall c :: c in errors <==> c == MissingAcPrefix && exists tc :: tc in cases[..i] && !HasAcPrefix(tc)
    {
      if !HasAcPrefix(cases[i]) {
        errors := errors + [MissingAcPrefix];
      }
      assert cases[..i + 1] == cases[..i] + [cases[i]];
    }
    assert cases[..|cases|] == cases;
  }

  /** collectExpectedBlockShapeErrors */
  method CollectShapeErrors(s: Schema) returns (errors: seq<Code>)
    ensures forall c :: c in errors <==>
              || (c == EmptyExpectedBlock && s.expected == Some([]))
              || (c == DuplicateExpectedValue && Repeats(ExpectedTexts(s)))
  {
    errors := CollectRepeats(ExpectedTexts(s), DuplicateExpectedValue);
    if s.expected == Some([]) {
      errors := errors + [EmptyExpectedBlock];
    }
  }

  /** The checker reports a rule if and only if the schema breaks it, so it accepts exactly the
      well-typed schemas. */
  method ValidateFullSchema(h: Host, s: Schema, feature: string) returns (errors: seq<Code>)
    ensures forall c :: c in errors <==> SchemaBreaks(h, s, feature, c)
    ensures errors == [] <==> WellTyped(h, s, feature)
  {
    var structural, exprs := CollectPagesErrors(h, s);
    var owned := CollectOwnedByErrors(h, s, feature);
    var shape := CollectShapeErrors(s);
    var argExprs := CollectSpecExprErrors(h, s);
    var waits := CollectWaitForResponseErrors(s);
    var acIds := CollectRepeats(AcIds(s), DuplicateAcId);
    var titles := CollectTitlePrefixErrors(s.spec.cases);
    var bodies := CollectSpecCallErrors(h, s);
    errors := structural + owned + shape + exprs + argExprs + waits + acIds + titles + bodies;
    forall c ensures c in errors <==> SchemaBreaks(h, s, feature, c) {
      InAnyOf(c, structural, owned, shape, exprs, argExprs, waits, acIds, titles, bodies);
    }
    EmptyIff(errors);
  }
}
