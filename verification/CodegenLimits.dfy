/** Schemas the checker accepts although their output does not resolve: one for each rule that the
    soundness theorem leaves to the caller. */
module CodegenLimits {
  import opened Option
  import opened CodegenSchema
  import opened CodegenLocator
  import opened CodegenChecker
  import opened CodegenEmit
  import opened CodegenResolution
  import opened CodegenSoundness
  import opened CodegenTheorem
  import LocatorEscaping
  import Text

  const GO := StepDef("step_go", [], [Navigate])

  function Case(b: BodyCall): TestCase {
    TestCase("AC-1", "Go", "[AC-1] should go", None, [b])
  }

  function OneCase(b: BodyCall, storage: Option<string>): Spec {
    Spec("Suite", storage, None, None, [Case(b)])
  }

  function Pages(pages: seq<Page>, b: BodyCall): Schema {
    Schema(pages, None, [], OneCase(b, None))
  }

  function PlainPage(pageClass: string, ownedBy: string, elements: seq<Element>, steps: seq<StepDef>): Page {
    Page(pageClass, Some("/"), ownedBy, false, elements, steps, [])
  }

  // ----- Accepting such a schema -----

  lemma OneCaseCalls(s: Schema, b: BodyCall)
    requires s.spec.beforeEach.None? && s.spec.cases == [Case(b)]
    ensures SpecCalls(s) == [b]
    ensures forall tc :: tc in s.spec.cases ==> HasAcPrefix(tc)
    ensures !Repeats(AcIds(s))
  {
    var cases := s.spec.cases;
    assert cases[1..] == [];
    assert CasesCalls(cases) == cases[0].body + CasesCalls(cases[1..]);
    assert "[" + "AC-1" + "]" == "[AC-1]" && "[AC-1]" <= "[AC-1] should go";
    assert |AcIds(s)| == 1;
  }

  /** A page with at most one element. */
  lemma SmallPageTyped(h: Host, page: Page)
    requires |page.elements| <= 1 && !Repeats(StepNames(page)) && !Repeats(VerifyNames(page))
    requires page.isPanel <==> page.path.None?
    requires forall el, c :: el in page.elements ==> !ElementBreaks(el, c)
    requires forall st, c :: st in page.steps ==> !StepBreaks(h, page, st, c)
    requires forall v, c :: v in page.verifies ==> !VerifyBreaks(h, page, v, c)
    ensures PageTyped(h, page)
  {
    forall c ensures !PageBreaks(h, page, c) {
      assert !Repeats(Refs(page.elements)) && !Repeats(FieldNames(h, page.elements));
    }
  }

  lemma PagesTyped(h: Host, s: Schema, c: Code)
    requires forall p :: p in s.pages ==> PageTyped(h, p) && PageExprsTyped(h, s, p)
    ensures !SomePageBreaks(h, s, c) && !SomePageExprBreaks(h, s, c)
  {
    forall p | p in s.pages
      ensures !PageBreaks(h, p, c) && !PageExprBreaks(h, s, p, c)
    {
      assert PageTyped(h, p) && PageExprsTyped(h, s, p);
    }
  }

  /** A schema of pages that wait for no response, with one call that the checker accepts. */
  lemma OneCallTyped(h: Host, s: Schema, feature: string, b: BodyCall)
    requires s.spec.beforeEach.None? && s.spec.cases == [Case(b)]
    requires forall p :: p in s.pages ==> PageTyped(h, p) && PageExprsTyped(h, s, p)
    requires Waits(s.pages) == [] && s.expected != Some([]) && !Repeats(ExpectedTexts(s))
    requires forall c :: !CallBreaks(h, s, b, c) && !CallExprBreaks(h, s, b, c)
    requires !OwnerBreaks(h, s, feature, b)
    ensures WellTyped(h, s, feature)
  {
    OneCaseCalls(s, b);
    forall c ensures !SchemaBreaks(h, s, feature, c) {
      PagesTyped(h, s, c);
      assert !CallBreaks(h, s, b, c) && !CallExprBreaks(h, s, b, c);
      assert !SomeCallBreaks(h, s, c) && !SomeCallExprBreaks(h, s, c) && !SomeOwnerBreaks(h, s, feature);
    }
  }

  /** Pages without verifies have no expressions to check. */
  lemma OneCaseTyped(h: Host, pages: seq<Page>, feature: string, b: BodyCall)
    requires forall p :: p in pages ==> PageTyped(h, p) && p.verifies == []
    requires Waits(pages) == []
    requires forall c :: !CallBreaks(h, Pages(pages, b), b, c) && !CallExprBreaks(h, Pages(pages, b), b, c)
    requires !OwnerBreaks(h, Pages(pages, b), feature, b)
    ensures WellTyped(h, Pages(pages, b), feature)
  {
    assert !Repeats(ExpectedTexts(Pages(pages, b)));
    OneCallTyped(h, Pages(pages, b), feature, b);
  }

  lemma PlainCallTyped(h: Host, s: Schema, b: BodyCall, c: Code)
    requires b.args == []
    requires FindPage(h, s.pages, b.fixture).Some? && MethodArity(FindPage(h, s.pages, b.fixture).value, b.call) == Some(0)
    ensures !CallBreaks(h, s, b, c) && !CallExprBreaks(h, s, b, c)
  {
  }

  const CALL := BodyCall("homePage", "step_go", [])

  /** A call is looked up in the first page with its fixture name, ownership in the last. */
  lemma FirstAndLast(h: Host, pages: seq<Page>, last: Page, fixture: string)
    requires pages != [] && pages[|pages| - 1] == last
    requires forall p :: p in pages ==> FixtureName(h, p.pageClass) == fixture
    ensures FindPage(h, pages, fixture) == Some(pages[0]) && LastPage(h, pages, fixture) == Some(last)
  {
    assert pages[0] in pages && last in pages;
  }

  /** One page of the feature, called once without arguments. */
  lemma OnePageTyped(h: Host, s: Schema, page: Page, b: BodyCall)
    requires s.spec.beforeEach.None? && s.spec.cases == [Case(b)]
    requires s.pages == [page] && page.ownedBy == "home" && PageTyped(h, page) && PageExprsTyped(h, s, page)
    requires Waits([page]) == [] && s.expected != Some([]) && !Repeats(ExpectedTexts(s))
    requires b.fixture == FixtureName(h, page.pageClass) && b.args == [] && MethodArity(page, b.call) == Some(0)
    ensures WellTyped(h, s, "home")
  {
    FirstAndLast(h, [page], page, b.fixture);
    forall c ensures !CallBreaks(h, s, b, c) && !CallExprBreaks(h, s, b, c) {
      PlainCallTyped(h, s, b, c);
    }
    OneCallTyped(h, s, "home", b);
  }

  lemma PlainCaseTyped(h: Host, pages: seq<Page>, feature: string, b: BodyCall)
    requires forall p :: p in pages ==> PageTyped(h, p) && p.verifies == []
    requires Waits(pages) == [] && b.args == []
    requires FindPage(h, pages, b.fixture).Some? && MethodArity(FindPage(h, pages, b.fixture).value, b.call) == Some(0)
    requires LastPage(h, pages, b.fixture).Some? && LastPage(h, pages, b.fixture).value.ownedBy == feature
    ensures WellTyped(h, Pages(pages, b), feature)
  {
    var s := Pages(pages, b);
    forall c ensures !CallBreaks(h, s, b, c) && !CallExprBreaks(h, s, b, c) {
      PlainCallTyped(h, s, b, c);
    }
    OneCaseTyped(h, pages, feature, b);
  }

  lemma OnePageAccepted(h: Host, page: Page)
    requires h.lower("H") == "h"
    requires page.pageClass == "HomePage" && page.ownedBy == "home" && page.verifies == []
    requires PageTyped(h, page) && MethodsPrefixed(page) && Waits([page]) == [] && MethodArity(page, "step_go") == Some(0)
    ensures Parsed(Pages([page], CALL)) && WellTyped(h, Pages([page], CALL), "home")
  {
    assert FixtureName(h, page.pageClass) == CALL.fixture;
    FirstAndLast(h, [page], page, CALL.fixture);
    PlainCaseTyped(h, [page], "home", CALL);
  }

  lemma OnePageSound(h: Host, s: Schema, page: Page)
    requires HostOk(h) && Parsed(s) && WellTyped(h, s, "home")
    requires s.pages == [page] && page.ownedBy == "home"
    ensures Generate(h, s, "home").Ok?
    ensures (forall cls :: cls in Generate(h, s, "home").value.classes ==>
               ClassResolves(h, ExpectedKeys(s), Generate(h, s, "home").value.expectedExport, cls))
            <==> PageSound(h, s, page)
  {
    CodegenSound(h, s, "home");
    assert page in s.pages;
  }

  /** A one-page schema around a page that the checker accepts: its class resolves if and only if the page
      keeps the page rules. */
  lemma OnePage(h: Host, page: Page)
    requires HostOk(h) && h.lower("H") == "h"
    requires page.pageClass == "HomePage" && page.ownedBy == "home" && page.verifies == []
    requires PageTyped(h, page) && MethodsPrefixed(page) && Waits([page]) == [] && MethodArity(page, "step_go") == Some(0)
    ensures Parsed(Pages([page], CALL)) && WellTyped(h, Pages([page], CALL), "home")
    ensures Generate(h, Pages([page], CALL), "home").Ok?
    ensures (forall cls :: cls in Generate(h, Pages([page], CALL), "home").value.classes ==>
               ClassResolves(h, None, None, cls)) <==> PageSound(h, Pages([page], CALL), page)
  {
    var s := Pages([page], CALL);
    OnePageAccepted(h, page);
    OnePageSound(h, s, page);
    assert ExpectedKeys(s) == None && Generate(h, s, "home").value.expectedExport == None;
  }

  lemma HomeNameIsFree(page: Page)
    requires page.pageClass == "HomePage"
    ensures ClassNameIsFree(page, true) && ClassNameIsFree(page, false)
  {
    assert "HomePage"[0] == 'H' && "BasePage"[0] == 'B' && "BasePanel"[0] == 'B' && "expect"[0] == 'e';
    assert "Locator"[0] == 'L' && "expected"[0] == 'e' && "Promise"[0] == 'P';
  }

  // ----- Elements that take a name -----

  /** An element without test id and accessible name, known by its ref. */
  function NamedMain(ref: string): Element {
    Element(ref, "main", None, None, None, Some("main"), [], None)
  }

  function PageWith(ref: string): Page {
    PlainPage("HomePage", "home", [NamedMain(ref)], [GO])
  }

  lemma NamedMainFacts(h: Host, ref: string)
    requires IsCamelCaseField(ref) && !IsGenericRef(ref)
    ensures DeriveFieldName(h, NamedMain(ref)) == ref
    ensures forall c :: !ElementBreaks(NamedMain(ref), c)
  {
    assert DeriveLocator(NamedMain(ref)).Ok? && CheckedSlot(NamedMain(ref)) == None;
  }

  lemma PageWithTyped(h: Host, ref: string)
    requires IsCamelCaseField(ref) && !IsGenericRef(ref)
    ensures PageTyped(h, PageWith(ref)) && DeriveFieldName(h, NamedMain(ref)) == ref
    ensures MethodsPrefixed(PageWith(ref)) && Waits([PageWith(ref)]) == []
    ensures MethodArity(PageWith(ref), "step_go") == Some(0)
  {
    var page := PageWith(ref);
    NamedMainFacts(h, ref);
    GoFacts(page);
    GoTyped(h, page);
    SmallPageTyped(h, page);
  }

  lemma GoFacts(page: Page)
    requires page.steps == [GO] && page.verifies == []
    ensures MethodsPrefixed(page) && Waits([page]) == [] && MethodArity(page, "step_go") == Some(0)
    ensures !Repeats(StepNames(page))
  {
    OneActionWaits(GO, Navigate);
    assert [page][1..] == [] && "step_" <= "step_go";
    assert LastStep([GO], "step_go") == Some(GO);
  }

  lemma GoTyped(h: Host, page: Page)
    ensures forall c :: !StepBreaks(h, page, GO, c)
  {
    assert forall a :: a in GO.actions ==> a == Navigate;
  }

  lemma OneActionWaits(step: StepDef, a: Action)
    requires step.actions == [a] && !a.WaitForResponse?
    ensures StepWaits([step]) == []
  {
    assert [step][1..] == [] && [a][1..] == [];
    assert ActionWaits([a]) == [];
  }

  /** A page with the step GO and one other. */
  lemma TwoStepFacts(page: Page, other: StepDef, a: Action)
    requires page.steps == [GO, other] && page.verifies == []
    requires other.actions == [a] && !a.WaitForResponse? && "step_" <= other.name && |other.name| > 7
    ensures MethodsPrefixed(page) && Waits([page]) == [] && MethodArity(page, "step_go") == Some(0)
    ensures !Repeats(StepNames(page))
  {
    OneActionWaits(GO, Navigate);
    OneActionWaits(other, a);
    TwoStepsWait(GO, other);
    assert [page][1..] == [];
    assert |"step_go"| == 7 && other.name != "step_go";
    assert [GO, other][..1] == [GO] && LastStep([GO], "step_go") == Some(GO);
  }

  lemma TwoStepsWait(first: StepDef, second: StepDef)
    requires StepWaits([first]) == [] && StepWaits([second]) == []
    ensures StepWaits([first, second]) == []
  {
    assert [first, second][1..] == [second] && [first][1..] == [];
  }

  /** An element called `path` repeats the path field of its page. */
  lemma PathIsDeclaredTwice(h: Host) returns (s: Schema)
    requires HostOk(h) && h.lower("H") == "h"
    ensures Parsed(s) && WellTyped(h, s, "home") && Generate(h, s, "home").Ok?
    ensures exists cls :: cls in Generate(h, s, "home").value.classes && !NamesDistinct(cls)
  {
    s := Pages([PageWith("path")], CALL);
    PageWithTyped(h, "path");
    OnePage(h, PageWith("path"));
    FirstClass(h, PageWith("path"));
    ClassNamesDistinctIff(h, PageWith("path"), None);
    assert NamedMain("path") in PageWith("path").elements;
  }

  /** An element called `page` hides the inherited page of the browser. */
  lemma InheritedMemberIsHidden(h: Host) returns (s: Schema)
    requires HostOk(h) && h.lower("H") == "h"
    ensures Parsed(s) && WellTyped(h, s, "home") && Generate(h, s, "home").Ok?
    ensures exists cls :: cls in Generate(h, s, "home").value.classes && !NothingHides(cls)
  {
    s := Pages([PageWith("page")], CALL);
    PageWithTyped(h, "page");
    OnePage(h, PageWith("page"));
    FirstClass(h, PageWith("page"));
    NothingHidesIff(h, PageWith("page"), None);
    assert NamedMain("page") in PageWith("page").elements;
    InheritedFacts(BasePage);
  }

  lemma FirstClass(h: Host, page: Page)
    requires PageTyped(h, page) && page.ownedBy == "home"
    ensures BuildPageObject(h, page, None).Ok?
    ensures Generate(h, Pages([page], CALL), "home").Ok?
    ensures Generate(h, Pages([page], CALL), "home").value.classes == [BuildPageObject(h, page, None).value]
  {
    TypedPageBuilds(h, page, None);
    assert [page][1..] == [];
    assert BuildOwned(h, [], "home", None) == Ok([]);
  }

  // ----- A panel that waits for a page load -----

  const WAIT := StepDef("step_wait", [], [WaitForPageLoad])
  const PANEL := Page("HomePage", None, "home", true, [], [GO, WAIT], [])

  /** A panel's base class cannot wait for a page load. */
  lemma PanelCannotWait(h: Host) returns (s: Schema)
    requires HostOk(h) && h.lower("H") == "h"
    ensures Parsed(s) && WellTyped(h, s, "home") && Generate(h, s, "home").Ok?
    ensures exists cls :: cls in Generate(h, s, "home").value.classes && !ClassResolves(h, None, None, cls)
  {
    s := Pages([PANEL], CALL);
    PanelFacts(h);
    OnePage(h, PANEL);
    assert WAIT in PANEL.steps && WaitForPageLoad in WAIT.actions;
    assert !ActionSound(h, s, PANEL, WAIT.params, WaitForPageLoad);
    assert !StepSound(h, s, PANEL, WAIT);
  }

  lemma PanelFacts(h: Host)
    ensures PageTyped(h, PANEL) && MethodsPrefixed(PANEL) && Waits([PANEL]) == []
    ensures MethodArity(PANEL, "step_go") == Some(0)
  {
    assert "step_" <= "step_wait" && |"step_wait"| == 9;
    TwoStepFacts(PANEL, WAIT, WaitForPageLoad);
    GoTyped(h, PANEL);
    WaitTyped(h, PANEL);
    SmallPageTyped(h, PANEL);
  }

  lemma WaitTyped(h: Host, page: Page)
    ensures forall c :: !StepBreaks(h, page, WAIT, c)
  {
    assert forall a :: a in WAIT.actions ==> a == WaitForPageLoad;
  }

  // ----- Reference arguments -----

  const ROW_LOCATOR := BLANK.(strategy := ByText, value := Some("{id}"))
  const ROW := Element("row", "tr", None, None, None, None, [Param("id", "string")], Some(ROW_LOCATOR))

  function Pick(e: string): StepDef {
    StepDef("step_pick", [], [Point(Click, "row", [e])])
  }

  function RowPage(e: string): Page {
    PlainPage("HomePage", "home", [ROW], [GO, Pick(e)])
  }

  function RowSchema(e: string): Schema {
    Pages([RowPage(e)], CALL)
  }

  /** Every expression passes as a reference argument, and the class resolves only if it is one argument and
      mentions nothing but what its file has: the class and its base. */
  lemma AnyRefArgIsAccepted(h: Host, e: string)
    requires HostOk(h) && h.lower("H") == "h" && h.validExpr(e)
    ensures Parsed(RowSchema(e)) && WellTyped(h, RowSchema(e), "home") && Generate(h, RowSchema(e), "home").Ok?
    ensures (forall cls :: cls in Generate(h, RowSchema(e), "home").value.classes ==> ClassResolves(h, None, None, cls))
            <==> IsArgument(h, e) && forall n :: n in h.freeNames(e) ==> n == "HomePage" || n == "BasePage"
  {
    RowPageFacts(h, e);
    OnePage(h, RowPage(e));
    RowPageSoundIff(h, RowSchema(e), e);
  }

  /** A reference argument that mentions `expected` is accepted although nothing imports it. */
  lemma RefArgMentionsExpected(h: Host) returns (cls: ClassDecl)
    requires HostOk(h) && h.lower("H") == "h"
    requires h.validExpr("expected.id") && h.freeNames("expected.id") == ["expected"]
    ensures WellTyped(h, RowSchema("expected.id"), "home") && Generate(h, RowSchema("expected.id"), "home").Ok?
    ensures cls in Generate(h, RowSchema("expected.id"), "home").value.classes
    ensures cls.expectedImport == None && !ClassResolves(h, None, None, cls)
  {
    var e := "expected.id";
    MentionsMore(h, e);
    AnyRefArgIsAccepted(h, e);
    RowPageFacts(h, e);
    FirstClass(h, RowPage(e));
    cls :| cls in Generate(h, RowSchema(e), "home").value.classes && !ClassResolves(h, None, None, cls);
    BuiltParts(h, RowPage(e), None);
  }

  lemma MentionsMore(h: Host, e: string)
    requires h.freeNames(e) == ["expected"]
    ensures !(forall n :: n in h.freeNames(e) ==> n == "HomePage" || n == "BasePage")
  {
    ExpectedIsNoClass();
    assert "expected" in h.freeNames(e);
  }

  lemma ExpectedIsNoClass()
    ensures "expected" !in {"HomePage", "BasePage", "homePage", "expect", "test"}
  {
    assert "expected"[0] == 'e' && "HomePage"[0] == 'H' && "BasePage"[0] == 'B' && "homePage"[0] == 'h' && "test"[0] == 't';
    assert |"expect"| == 6 && |"expected"| == 8;
  }

  lemma RowElementFacts(h: Host)
    ensures DeriveFieldName(h, ROW) == "row" && forall c :: !ElementBreaks(ROW, c)
  {
    assert IsCamelCaseField("row") && !IsGenericRef("row");
    RowLocatorRenders();
    RowPlaceholdersMatch();
  }

  lemma RowLocatorRenders()
    ensures ResolveLocator(ROW) == Some(ROW_LOCATOR) && DeriveLocator(ROW).Ok?
  {
    assert RenderFrames(ROW_LOCATOR.framePath, true) == Ok([]);
    assert RenderCalls(ROW_LOCATOR, true).Ok?;
  }

  lemma RowPlaceholdersMatch()
    ensures PlaceholdersMatch(ROW)
  {
    OneHole();
    var used, params := SlotHoles(CheckedSlot(ROW)), ROW.dynParams;
    assert used == ["id"] && params == [Param("id", "string")];
    assert params[0] in params && used[0] in used;
    assert forall p :: p in params ==> p == params[0];
    assert forall name :: name in used ==> name == "id";
  }

  lemma OneHole()
    ensures ExtractPlaceholders("{id}") == ["id"]
  {
    var s := "{id}";
    assert s[1..] == "id}" && Text.IndexOfChar("id}", '}') == 2 by {
      assert "id}"[1..] == "d}" && "d}"[1..] == "}";
    }
    assert s[1..1 + 2] == "id" && s[4..] == "";
    assert Text.Trim("id") == "id";
    assert Pieces(s) == [Hole("id")] + Pieces("");
    assert [Hole("id")][1..] == [];
  }

  lemma RowPageFacts(h: Host, e: string)
    requires h.validExpr(e)
    ensures PageTyped(h, RowPage(e)) && MethodsPrefixed(RowPage(e)) && Waits([RowPage(e)]) == []
    ensures MethodArity(RowPage(e), "step_go") == Some(0)
  {
    var page, pick := RowPage(e), Pick(e);
    RowElementFacts(h);
    assert "step_" <= "step_pick" && |"step_pick"| == 9;
    TwoStepFacts(page, pick, pick.actions[0]);
    GoTyped(h, page);
    PickTyped(h, e);
    SmallPageTyped(h, page);
  }

  lemma PickTyped(h: Host, e: string)
    requires h.validExpr(e)
    ensures forall c :: !StepBreaks(h, RowPage(e), Pick(e), c)
  {
    assert [ROW][..0] == [] && ElementByRef(RowPage(e).elements, "row") == Some(ROW);
    assert forall c :: !UseBreaks(h, RowPage(e), Use("row", [e]), c);
    assert ActionUses(Pick(e).actions[0]) == [Use("row", [e])];
    assert forall a :: a in Pick(e).actions ==> a == Pick(e).actions[0];
  }

  lemma RowArgIff(h: Host, s: Schema, e: string)
    requires s.expected.None?
    ensures RefArgSound(h, s, RowPage(e), [], e)
            <==> IsArgument(h, e) && forall n :: n in h.freeNames(e) ==> n == "HomePage" || n == "BasePage"
  {
    ExpectedIsNoClass();
    assert PageScope(h, s, RowPage(e), []) == Scope({"HomePage", "BasePage"}, false, {});
  }

  lemma PickSoundIff(h: Host, s: Schema, e: string)
    ensures StepSound(h, s, RowPage(e), Pick(e)) <==> RefArgSound(h, s, RowPage(e), [], e)
  {
    var u, a := Use("row", [e]), Pick(e).actions[0];
    assert UseSound(h, s, RowPage(e), [], u) <==> RefArgSound(h, s, RowPage(e), [], e) by {
      assert e in u.args && forall x :: x in u.args ==> x == e;
    }
    assert ActionUses(a) == [u] && u in [u];
    assert ActionSound(h, s, RowPage(e), [], a) <==> UseSound(h, s, RowPage(e), [], u);
    assert a in Pick(e).actions && forall x :: x in Pick(e).actions ==> x == a;
  }

  lemma RowPageSoundIff(h: Host, s: Schema, e: string)
    requires HostOk(h) && s.expected.None?
    ensures PageSound(h, s, RowPage(e))
            <==> IsArgument(h, e) && forall n :: n in h.freeNames(e) ==> n == "HomePage" || n == "BasePage"
  {
    var page := RowPage(e);
    RowElementFacts(h);
    RowArgIff(h, s, e);
    PickSoundIff(h, s, e);
    RowNameIsFree();
    HomeNameIsFree(page);
    assert forall el :: el in page.elements <==> el == ROW;
    assert Pick(e) in page.steps && forall st :: st in page.steps <==> st == GO || st == Pick(e);
    assert StepSound(h, s, page, GO);
  }

  lemma RowNameIsFree()
    ensures "row" !in Inherited(BasePage) && "row" != "path"
  {
    assert |"row"| == 3 && |"page"| == 4 && |"path"| == 4 && |"dragTo"| == 6;
  }

  // ----- Arguments of the spec -----

  const TAKE := StepDef("step_take", [Param("x", "string")], [Navigate])
  const TAKE_PAGE := PlainPage("HomePage", "home", [], [TAKE])

  function Take(e: string): BodyCall {
    BodyCall("homePage", "step_take", [e])
  }

  function TakeSchema(e: string): Schema {
    Pages([TAKE_PAGE], Take(e))
  }

  /** No rule of the checker singles the expression out. */
  predicate Unremarkable(h: Host, e: string) {
    && h.validExpr(e) && h.expectedKeys(e) == []
    && !InlineString(h, e) && !InlineRegex(h, e) && !h.patterns.quotedEnv(Text.Trim(e))
  }

  /** Every such expression passes as the argument of a spec call, the empty one included, and the spec
      resolves only if it is one argument that mentions nothing but the fixture and the import. */
  lemma AnySpecArgIsAccepted(h: Host, e: string)
    requires HostOk(h) && h.lower("H") == "h" && Unremarkable(h, e)
    ensures Parsed(TakeSchema(e)) && WellTyped(h, TakeSchema(e), "home") && Generate(h, TakeSchema(e), "home").Ok?
    ensures SpecResolves(h, TakeSchema(e), Generate(h, TakeSchema(e), "home").value)
            <==> IsArgument(h, e) && forall n :: n in h.freeNames(e) ==> n == "homePage" || n == "test"
  {
    TakePageFacts(h);
    forall c ensures !CallBreaks(h, TakeSchema(e), Take(e), c) && !CallExprBreaks(h, TakeSchema(e), Take(e), c) {
      TakeTyped(h, e, c);
    }
    assert [TAKE_PAGE][..0] == [];
    OneCaseTyped(h, [TAKE_PAGE], "home", Take(e));
    CodegenSound(h, TakeSchema(e), "home");
    TakeSoundIff(h, e);
  }

  lemma TakePageFacts(h: Host)
    requires h.lower("H") == "h"
    ensures PageTyped(h, TAKE_PAGE) && MethodsPrefixed(TAKE_PAGE) && Waits([TAKE_PAGE]) == []
    ensures MethodArity(TAKE_PAGE, "step_take") == Some(1)
    ensures FixtureName(h, TAKE_PAGE.pageClass) == "homePage"
  {
    OneActionWaits(TAKE, Navigate);
    assert [TAKE_PAGE][1..] == [] && "step_" <= "step_take";
    assert LastStep([TAKE], "step_take") == Some(TAKE);
    assert forall a :: a in TAKE.actions ==> a == Navigate;
    assert forall c :: !StepBreaks(h, TAKE_PAGE, TAKE, c);
    SmallPageTyped(h, TAKE_PAGE);
  }

  /** A call with one argument that no rule singles out. */
  lemma OneArgTyped(h: Host, s: Schema, b: BodyCall, e: string, c: Code)
    requires b.args == [e] && s.expected.None? && Unremarkable(h, e)
    requires FindPage(h, s.pages, b.fixture).Some? && MethodArity(FindPage(h, s.pages, b.fixture).value, b.call) == Some(1)
    ensures !CallBreaks(h, s, b, c) && !CallExprBreaks(h, s, b, c)
  {
    OneArgExprs(h, s, b, e, c);
    assert AllValid(h, b.args) && forall x :: x in b.args ==> x == e;
  }

  lemma OneArgExprs(h: Host, s: Schema, b: BodyCall, e: string, c: Code)
    requires b.args == [e] && s.expected.None? && Unremarkable(h, e)
    ensures !CallExprBreaks(h, s, b, c)
  {
    assert !ExprBreaks(h, s, e, c);
    assert forall x :: x in b.args ==> x == e;
  }

  lemma TakeTyped(h: Host, e: string, c: Code)
    requires h.lower("H") == "h" && Unremarkable(h, e)
    ensures !CallBreaks(h, TakeSchema(e), Take(e), c) && !CallExprBreaks(h, TakeSchema(e), Take(e), c)
  {
    TakePageFacts(h);
    assert FindPage(h, [TAKE_PAGE], "homePage") == Some(TAKE_PAGE);
    OneArgTyped(h, TakeSchema(e), Take(e), e, c);
  }

  lemma TakeArgIff(h: Host, s: Schema, e: string)
    ensures NamesResolve(h, ExpectedKeys(s), Scope({"test"}, false, {"homePage"}), e)
            <==> forall n :: n in h.freeNames(e) ==> n == "homePage" || n == "test"
  {
    ExpectedIsNoClass();
  }

  lemma TakeSoundIff(h: Host, e: string)
    requires h.lower("H") == "h"
    ensures SpecSound(h, TakeSchema(e), "home")
            <==> IsArgument(h, e) && forall n :: n in h.freeNames(e) ==> n == "homePage" || n == "test"
  {
    var s, b := TakeSchema(e), Take(e);
    TakePageFacts(h);
    assert [TAKE_PAGE][1..] == [];
    assert Owned([], "home") == [] && Owned([TAKE_PAGE], "home") == [TAKE_PAGE];
    assert OwnedAt(h, [TAKE_PAGE], b, 0);
    assert CallOwned(h, s, "home", b);
    var tc := s.spec.cases[0];
    assert tc.body == [b] && b in [b];
    var scope := Scope({"test"}, false, {"homePage"});
    assert TestScope(HasExpectedData(s), [b]) == scope;
    TakeArgIff(h, s, e);
    assert ArgsSound(h, s, scope, b) <==> IsArgument(h, e) && NamesResolve(h, ExpectedKeys(s), scope, e) by {
      assert e in b.args;
    }
    assert CallsSound(h, s, "home", scope, [b]) <==> ArgsSound(h, s, scope, b);
    assert tc in s.spec.cases;
    assert forall x :: x in s.spec.cases <==> x == tc;
    assert BeforeEach(s) == [];
  }

  /** An empty argument passes the count of the checker and vanishes from the printed call. */
  lemma EmptyArgumentVanishes(h: Host)
    requires HostOk(h) && h.lower("H") == "h" && h.validExpr("")
    requires h.patterns.stringLiteral("") == None && !h.patterns.regexLiteral("") && !h.patterns.quotedEnv("")
    ensures Parsed(TakeSchema("")) && WellTyped(h, TakeSchema(""), "home") && Generate(h, TakeSchema(""), "home").Ok?
    ensures !SpecResolves(h, TakeSchema(""), Generate(h, TakeSchema(""), "home").value)
    ensures ReadArguments(h, Take("").args) == []
  {
    assert Text.Trim("") == "";
    AnySpecArgIsAccepted(h, "");
    assert [""][1..] == [];
    assert Slots(h, [""]) == [""];
  }

  // ----- Arguments of assertions -----

  const RECORD := [ExpectedEntry("id", None)]

  function TitleCheck(p: string, e: string): VerifyDef {
    VerifyDef("verify_title", [Param(p, "string")], [OnPage("toHaveTitle", Some(e))])
  }

  function TitlePage(p: string, e: string): Page {
    Page("HomePage", Some("/"), "home", false, [], [GO], [TitleCheck(p, e)])
  }

  /** One page whose verify method has one parameter and asserts one expression, and a record with the key id. */
  function TitleSchema(p: string, e: string): Schema {
    Schema([TitlePage(p, e)], Some(RECORD), [], OneCase(CALL, None))
  }

  /** No rule singles the asserted expression out, and every key that the pattern finds in it is known. */
  predicate Assertable(h: Host, e: string) {
    && e != "" && h.validExpr(e) && !InlineString(h, e) && !InlineRegex(h, e)
    && forall k :: k in h.expectedKeys(e) ==> k == "id"
  }

  /** Every such expression is accepted in such an assertion, whatever the parameter is called, and the class
      resolves if and only if the expression stays inside the call and the names resolve: the pattern decides on the
      import, the parameter hides what it names. */
  lemma AnyAssertedArgIsAccepted(h: Host, p: string, e: string)
    requires HostOk(h) && h.lower("H") == "h" && Assertable(h, e)
    ensures Parsed(TitleSchema(p, e)) && WellTyped(h, TitleSchema(p, e), "home") && Generate(h, TitleSchema(p, e), "home").Ok?
    ensures var out := Generate(h, TitleSchema(p, e), "home").value;
            (forall cls :: cls in out.classes ==> ClassResolves(h, Some(["id"]), out.expectedExport, cls)) <==>
            && p != "expect"
            && h.enclosed(e)
            && NamesResolve(h, Some(["id"]), Scope({"HomePage", "BasePage", "expect"}, h.expectedKeys(e) != [], {p}), e)
  {
    var s := TitleSchema(p, e);
    TitlePageTyped(h, p, e);
    TitleAccepted(h, p, e);
    OnePageSound(h, s, TitlePage(p, e));
    RecordKeys(s);
    TitlePageSoundIff(h, p, e);
  }

  lemma TitleCheckTyped(h: Host, p: string, e: string)
    requires Assertable(h, e)
    ensures forall c :: !VerifyBreaks(h, TitlePage(p, e), TitleCheck(p, e), c)
    ensures forall c :: !VerifyExprBreaks(h, TitleSchema(p, e), TitleCheck(p, e), c)
  {
    var s, v, a := TitleSchema(p, e), TitleCheck(p, e), OnPage("toHaveTitle", Some(e));
    assert |"toHaveTitle"| == 11 && |"toHaveURL"| == 9;
    assert forall x :: x in v.assertions ==> x == a;
    assert forall c :: !AssertionBreaks(h, TitlePage(p, e), a, c);
    TitleExprTyped(h, s, e);
  }

  lemma TitleExprTyped(h: Host, s: Schema, e: string)
    requires Assertable(h, e) && s.expected == Some(RECORD)
    ensures forall c :: !ExprBreaks(h, s, e, c)
  {
    RecordKeys(s);
    assert "id" in ["id"];
  }

  lemma RecordKeys(s: Schema)
    requires s.expected == Some(RECORD)
    ensures ExpectedKeys(s) == Some(["id"])
  {
    var keys := ExpectedKeys(s).value;
    assert |keys| == 1 && keys[0] == "id";
    assert keys == ["id"];
  }

  lemma TitlePageFacts(p: string, e: string)
    ensures MethodsPrefixed(TitlePage(p, e)) && Waits([TitlePage(p, e)]) == []
    ensures MethodArity(TitlePage(p, e), "step_go") == Some(0)
    ensures !Repeats(StepNames(TitlePage(p, e))) && !Repeats(VerifyNames(TitlePage(p, e)))
  {
    var page := TitlePage(p, e);
    OneActionWaits(GO, Navigate);
    assert [page][1..] == [];
    assert "step_" <= "step_go" && "verify_" <= "verify_title";
    assert |"step_go"| == 7 && |"verify_title"| == 12;
    assert LastVerify(page.verifies, "step_go") == None;
    assert LastStep([GO], "step_go") == Some(GO);
  }

  lemma TitlePageTyped(h: Host, p: string, e: string)
    requires Assertable(h, e)
    ensures PageTyped(h, TitlePage(p, e)) && PageExprsTyped(h, TitleSchema(p, e), TitlePage(p, e))
  {
    var page := TitlePage(p, e);
    TitleCheckTyped(h, p, e);
    TitlePageFacts(p, e);
    GoTyped(h, page);
    SmallPageTyped(h, page);
    assert forall v :: v in page.verifies ==> v == TitleCheck(p, e);
  }

  lemma TitleAccepted(h: Host, p: string, e: string)
    requires h.lower("H") == "h" && Assertable(h, e)
    requires PageTyped(h, TitlePage(p, e)) && PageExprsTyped(h, TitleSchema(p, e), TitlePage(p, e))
    ensures Parsed(TitleSchema(p, e)) && WellTyped(h, TitleSchema(p, e), "home")
  {
    var s, page := TitleSchema(p, e), TitlePage(p, e);
    TitlePageFacts(p, e);
    assert FixtureName(h, page.pageClass) == CALL.fixture;
    NoTexts(s);
    OnePageTyped(h, s, page, CALL);
  }

  lemma NoTexts(s: Schema)
    requires s.expected == Some(RECORD)
    ensures !Repeats(ExpectedTexts(s))
  {
    assert RECORD[1..] == [];
    assert TextsOf(RECORD) == [];
  }

  lemma TitlePageSoundIff(h: Host, p: string, e: string)
    requires Assertable(h, e)
    ensures PageSound(h, TitleSchema(p, e), TitlePage(p, e)) <==>
            && p != "expect"
            && h.enclosed(e)
            && NamesResolve(h, Some(["id"]), Scope({"HomePage", "BasePage", "expect"}, h.expectedKeys(e) != [], {p}), e)
  {
    var s, page, v := TitleSchema(p, e), TitlePage(p, e), TitleCheck(p, e);
    HomeNameIsFree(page);
    assert v in page.verifies && forall x :: x in page.verifies ==> x == v;
    assert forall x :: x in page.steps ==> x == GO;
    assert StepSound(h, s, page, GO);
    TitleScope(h, p, e);
    RecordKeys(s);
    TitleCheckSoundIff(h, s, page, v, p, e);
  }

  lemma TitleScope(h: Host, p: string, e: string)
    ensures PageScope(h, TitleSchema(p, e), TitlePage(p, e), [Param(p, "string")])
            == Scope({"HomePage", "BasePage", "expect"}, h.expectedKeys(e) != [], {p})
  {
    var page, v, a := TitlePage(p, e), TitleCheck(p, e), OnPage("toHaveTitle", Some(e));
    assert v in page.verifies && a in v.assertions && a.arg.Some?;
    assert UsesExpected(h, page) <==> h.expectedKeys(e) != [];
    assert ParamNames([Param(p, "string")]) == {p} by {
      assert Param(p, "string") in [Param(p, "string")];
    }
  }

  lemma TitleCheckSoundIff(h: Host, s: Schema, page: Page, v: VerifyDef, p: string, e: string)
    requires v == TitleCheck(p, e) && e != ""
    ensures VerifySound(h, s, page, v) <==>
            p != "expect" && h.enclosed(e) && NamesResolve(h, ExpectedKeys(s), PageScope(h, s, page, v.params), e)
  {
    var a := OnPage("toHaveTitle", Some(e));
    assert a in v.assertions && forall x :: x in v.assertions ==> x == a;
    assert "expect" in ParamNames(v.params) <==> p == "expect" by {
      assert Param(p, "string") in v.params;
    }
    assert AssertionUses(a) == [];
  }

  /** A parameter called `expected` hides the record that the checker takes expected.id to mean. */
  lemma ParameterHidesExpected(h: Host)
    requires HostOk(h) && h.lower("H") == "h" && Assertable(h, "expected.id")
    requires h.expectedKeys("expected.id") == ["id"] && h.freeNames("expected.id") == ["expected"]
    ensures var s := TitleSchema("expected", "expected.id");
            && WellTyped(h, s, "home") && Generate(h, s, "home").Ok?
            && exists cls :: cls in Generate(h, s, "home").value.classes
                 && !ClassResolves(h, Some(["id"]), Generate(h, s, "home").value.expectedExport, cls)
  {
    AnyAssertedArgIsAccepted(h, "expected", "expected.id");
    assert "expected" in h.freeNames("expected.id");
  }

  /** A key in brackets is a key all the same, but not to the pattern: the class does not import `expected`. */
  lemma BracketsAreNotImported(h: Host, e: string)
    requires HostOk(h) && h.lower("H") == "h" && Assertable(h, e)
    requires h.expectedKeys(e) == [] && h.freeNames(e) == ["expected"]
    ensures var s := TitleSchema("title", e);
            && WellTyped(h, s, "home") && Generate(h, s, "home").Ok?
            && exists cls :: cls in Generate(h, s, "home").value.classes
                 && !ClassResolves(h, Some(["id"]), Generate(h, s, "home").value.expectedExport, cls)
  {
    AnyAssertedArgIsAccepted(h, "title", e);
    ExpectedIsNoClass();
    assert "expected" in h.freeNames(e) && "expected" != "title" by {
      assert |"title"| == 5;
    }
  }

  /** A parameter called `expect` hides the function that the method calls. */
  lemma ParameterHidesExpect(h: Host, e: string)
    requires HostOk(h) && h.lower("H") == "h" && Assertable(h, e)
    ensures var s := TitleSchema("expect", e);
            && WellTyped(h, s, "home") && Generate(h, s, "home").Ok?
            && exists cls :: cls in Generate(h, s, "home").value.classes
                 && !ClassResolves(h, Some(["id"]), Generate(h, s, "home").value.expectedExport, cls)
  {
    AnyAssertedArgIsAccepted(h, "expect", e);
  }

  // ----- Class names -----

  /** One page with one step, called once; the spec also generates a setup. */
  function NamedSchema(h: Host, name: string): Schema {
    Schema([PlainPage(name, "home", [], [GO])], None, [],
           OneCase(BodyCall(FixtureName(h, name), "step_go", []), Some("state.json")))
  }

  /** Every class name is accepted; the class resolves unless its file has the name for something else, and the
      setup unless the fixture is the name of its parameter or the class a name of the setup. */
  lemma AnyClassNameIsAccepted(h: Host, name: string)
    requires HostOk(h)
    ensures var s := NamedSchema(h, name);
            && Parsed(s) && WellTyped(h, s, "home")
            && Generate(h, s, "home").Ok? && Generate(h, s, "home").value.auth.Some?
    ensures var out := Generate(h, NamedSchema(h, name), "home").value;
            && ((forall cls :: cls in out.classes ==> ClassResolves(h, None, None, cls))
                <==> name != "BasePage" && name != "Promise")
            && (AuthResolves(h, NamedSchema(h, name), out, out.auth.value)
                <==> FixtureName(h, name) != "page" && name !in {"page", "setup", FixtureName(h, name)})
  {
    var s, page := NamedSchema(h, name), PlainPage(name, "home", [], [GO]);
    NamedAccepted(h, name);
    CodegenSound(h, s, "home");
    assert ExpectedKeys(s) == None && Generate(h, s, "home").value.expectedExport == None;
    assert PageSound(h, s, page) <==> name != "BasePage" && name != "Promise" by {
      assert forall x :: x in page.steps <==> x == GO;
      assert StepSound(h, s, page, GO);
    }
    NamedAuthIff(h, name);
  }

  lemma NamedAccepted(h: Host, name: string)
    ensures Parsed(NamedSchema(h, name)) && WellTyped(h, NamedSchema(h, name), "home")
  {
    var s, page := NamedSchema(h, name), PlainPage(name, "home", [], [GO]);
    var b := BodyCall(FixtureName(h, name), "step_go", []);
    PlainPageTyped(h, page);
    GoFacts(page);
    assert ExpectedTexts(s) == [];
    OnePageTyped(h, s, page, b);
  }

  lemma NamedAuthIff(h: Host, name: string)
    ensures AuthSound(h, NamedSchema(h, name), "home")
            <==> FixtureName(h, name) != "page" && name !in {"page", "setup", FixtureName(h, name)}
  {
    var s, page := NamedSchema(h, name), PlainPage(name, "home", [], [GO]);
    var b := BodyCall(FixtureName(h, name), "step_go", []);
    var calls := s.spec.cases[0].body;
    GoFacts(page);
    FirstAndLast(h, [page], page, b.fixture);
    OwnedOne(page);
    assert calls == [b] && b in calls;
    assert OwnedAt(h, [page], b, 0) && CallOwned(h, s, "home", b);
    assert CallsSound(h, s, "home", CallsScope(h, s, calls), calls);
    assert page in Owned(s.pages, "home") && FirstIsOwned(h, s, "home", b.fixture);
    assert Fixtures(calls) == {b.fixture};
  }

  lemma OwnedOne(page: Page)
    requires page.ownedBy == "home"
    ensures Owned([page], "home") == [page]
  {
    assert [page][1..] == [] && Owned([], "home") == [];
  }

  /** const loginPage = new loginPage(page) uses what it declares. */
  lemma SetupHidesItsClass(h: Host)
    requires HostOk(h) && FixtureName(h, "loginPage") == "loginPage"
    ensures var s := NamedSchema(h, "loginPage");
            && WellTyped(h, s, "home") && Generate(h, s, "home").Ok? && Generate(h, s, "home").value.auth.Some?
            && !AuthResolves(h, s, Generate(h, s, "home").value, Generate(h, s, "home").value.auth.value)
  {
    AnyClassNameIsAccepted(h, "loginPage");
  }

  /** const page = new Page(page) declares the parameter again. */
  lemma SetupRepeatsItsParameter(h: Host)
    requires HostOk(h) && FixtureName(h, "Page") == "page"
    ensures var s := NamedSchema(h, "Page");
            && WellTyped(h, s, "home") && Generate(h, s, "home").Ok? && Generate(h, s, "home").value.auth.Some?
            && !AuthResolves(h, s, Generate(h, s, "home").value, Generate(h, s, "home").value.auth.value)
  {
    AnyClassNameIsAccepted(h, "Page");
  }

  /** A page called BasePage declares what its file imports. */
  lemma ClassRepeatsAnImport(h: Host)
    requires HostOk(h)
    ensures var s := NamedSchema(h, "BasePage");
            && WellTyped(h, s, "home") && Generate(h, s, "home").Ok?
            && exists cls :: cls in Generate(h, s, "home").value.classes && !ClassResolves(h, None, None, cls)
  {
    AnyClassNameIsAccepted(h, "BasePage");
  }

  // ----- Two pages with one fixture name -----

  /** Distinct class names are not enough: LoginPage and loginPage give the same fixture, the checker
      resolves a call against the first and ownership against the last, and the only page of the feature
      lacks the method. */
  lemma CaseOnlyClassesClash(h: Host) returns (s: Schema)
    requires HostOk(h) && h.lower("L") == h.lower("l") == "l"
    ensures Parsed(s) && WellTyped(h, s, "auth")
    ensures |s.pages| == 2 && s.pages[0].pageClass != s.pages[1].pageClass
    ensures Generate(h, s, "auth").Ok? && !SpecResolves(h, s, Generate(h, s, "auth").value)
  {
    var b := BodyCall("loginPage", "step_go", []);
    var upper, lower := PlainPage("LoginPage", "other", [], [GO]), PlainPage("loginPage", "auth", [], []);
    s := Pages([upper, lower], b);
    ClashTyped(h, upper, lower);
    CodegenSound(h, s, "auth");
    LastIsOwned(upper, lower);
    NoOwnerHasMethod(h, s, lower, b);
    var tc := s.spec.cases[0];
    assert b in tc.body && tc in s.spec.cases;
    assert !CallsSound(h, s, "auth", TestScope(HasExpectedData(s), tc.body), tc.body);
  }

  lemma LastIsOwned(upper: Page, lower: Page)
    requires upper.ownedBy != "auth" && lower.ownedBy == "auth"
    ensures Owned([upper, lower], "auth") == [lower]
  {
    assert [upper, lower][1..] == [lower] && [lower][1..] == [];
    assert Owned([], "auth") == [] && Owned([lower], "auth") == [lower];
  }

  lemma NoOwnerHasMethod(h: Host, s: Schema, page: Page, b: BodyCall)
    requires Owned(s.pages, "auth") == [page] && page.steps == [] && page.verifies == []
    ensures !CallOwned(h, s, "auth", b)
  {
    assert MethodArity(page, b.call) == None;
  }

  lemma TwoPagesWait(first: Page, last: Page)
    requires StepWaits(first.steps) == [] && last.steps == []
    ensures Waits([first, last]) == []
  {
    assert [first, last][1..] == [last] && [last][1..] == [];
    assert Waits([last]) == [];
  }

  lemma ClashFacts(h: Host, upper: Page, lower: Page)
    requires upper == PlainPage("LoginPage", "other", [], [GO]) && lower == PlainPage("loginPage", "auth", [], [])
    requires h.lower("L") == h.lower("l") == "l"
    ensures Waits([upper, lower]) == [] && MethodArity(upper, "step_go") == Some(0)
    ensures FindPage(h, [upper, lower], "loginPage") == Some(upper)
    ensures LastPage(h, [upper, lower], "loginPage") == Some(lower)
  {
    GoFacts(upper);
    OneActionWaits(GO, Navigate);
    TwoPagesWait(upper, lower);
    assert FixtureName(h, "LoginPage") == "loginPage" == FixtureName(h, "loginPage");
    FirstAndLast(h, [upper, lower], lower, "loginPage");
  }

  lemma ClashTyped(h: Host, upper: Page, lower: Page)
    requires upper == PlainPage("LoginPage", "other", [], [GO]) && lower == PlainPage("loginPage", "auth", [], [])
    requires h.lower("L") == h.lower("l") == "l"
    ensures Parsed(Pages([upper, lower], BodyCall("loginPage", "step_go", [])))
    ensures WellTyped(h, Pages([upper, lower], BodyCall("loginPage", "step_go", [])), "auth")
  {
    var b := BodyCall("loginPage", "step_go", []);
    PlainPageTyped(h, upper);
    PlainPageTyped(h, lower);
    ClashFacts(h, upper, lower);
    PlainCaseTyped(h, [upper, lower], "auth", b);
    ParsedPages([upper, lower], b);
  }

  lemma ParsedPages(pages: seq<Page>, b: BodyCall)
    requires forall p, st :: p in pages && st in p.steps ==> st == GO
    requires forall p :: p in pages ==> p.verifies == []
    ensures Parsed(Pages(pages, b))
  {
    assert "step_" <= "step_go";
  }

  lemma PlainPageTyped(h: Host, page: Page)
    requires page.elements == [] && page.verifies == [] && page.steps in {[], [GO]}
    requires !page.isPanel && page.path.Some?
    ensures PageTyped(h, page)
  {
    GoTyped(h, page);
    assert !Repeats(StepNames(page));
    SmallPageTyped(h, page);
  }

  // ----- A title with an apostrophe -----

  /** The checker asks only for the prefix of a title, which is then put between quotes as it is. */
  lemma ApostropheBreaksTitle()
    ensures var title := "[AC-1] user can't log in";
            && HasAcPrefix(TestCase("AC-1", "Log in", title, None, []))
            && LocatorEscaping.EvalTsLiteral(LocatorEscaping.RawQuote(title)) != Some(title)
  {
    var title := "[AC-1] user can't log in";
    assert "[" + "AC-1" + "]" == "[AC-1]" && "[AC-1]" <= title;
    assert title[15] == '\'';
    LocatorEscaping.RawLiteralIff(title);
  }

  // ----- The hypotheses -----

  /** An ASCII letter in lower case. */
  function Lower(c: char): char {
    if 'A' <= c <= 'Z' then (c as int + 32) as char else c
  }

  function LowerAll(s: string): string {
    if s == [] then [] else [Lower(s[0])] + LowerAll(s[1..])
  }

  /** A host for which everything asked above holds at once: one reading of the few expressions in question. */
  function SomeHost(): Host {
    Host(s => "name", LowerAll, c => [c], e => true,
         e => if e == "expected.id" then ["id"] else [],
         e => if e == "expected.id" || e == "expected['id']" then ["expected"] else [],
         e => if e == "expected.id" || e == "expected['id']" then ["id"] else [],
         e => true, e => [e],
         Patterns(s => false, s => false, s => false, s => false, s => false, s => false, s => None))
  }

  /** So no theorem or input of this part is about nothing. */
  lemma HypothesesAreMet()
    ensures var h := SomeHost();
            && HostOk(h)
            && h.lower("H") == "h" && h.lower("L") == "l" && h.lower("l") == "l"
            && FixtureName(h, "loginPage") == "loginPage" && FixtureName(h, "Page") == "page"
            && Assertable(h, "expected.id") && h.expectedKeys("expected.id") == ["id"]
            && h.freeNames("expected.id") == ["expected"]
            && Assertable(h, "expected['id']") && h.expectedKeys("expected['id']") == []
            && h.freeNames("expected['id']") == ["expected"]
            && Unremarkable(h, "")
  {
    var h := SomeHost();
    assert "name"[0] == 'n' && "name"[1] == 'a' && "name"[2] == 'm' && "name"[3] == 'e';
    assert |"expected.id"| == 11 && |"expected['id']"| == 14;
    assert LowerAll("H") == "h" && LowerAll("L") == "l" && LowerAll("l") == "l" && LowerAll("P") == "p" by {
      assert "H"[1..] == "" && "L"[1..] == "" && "l"[1..] == "" && "P"[1..] == "";
    }
    assert ["Page"[0]] == "P" && "Page"[1..] == "age" && "p" + "age" == "page";
    assert ["loginPage"[0]] == "l" && "loginPage"[1..] == "oginPage" && "l" + "oginPage" == "loginPage";
  }
}
