/** The back end of the code generator, producing syntax trees instead of text
    (apps/runtime-mcp/src/codegen/page-object.ts, spec-writer.ts and the create mode of generator.ts). */
module CodegenEmit {
  import opened Option
  import opened CodegenSchema
  import opened CodegenLocator
  import Text

  // ----- Page objects -----

  /** this.name or this.name(args) */
  datatype Access = FieldAccess(name: string) | CallAccess(name: string, args: seq<string>)

  datatype Value = ParamRef(name: string) | Literal(text: string) | Missing

  datatype Stmt =
    | GotoOwnPath
    | PageCall(text: string)
    | WaitForLoad
    | Invoke(target: Access, operation: string, value: Option<Value>)
    | DragTo(source: Access, target: Access, native: bool)
    | WaitFor(target: Access, state: string)
    | ExpectPage(matcher: string, arg: string)
    | ExpectElement(target: Access, matcher: string, arg: string)

  datatype MethodDecl = MethodDecl(name: string, params: seq<Param>, body: seq<Stmt>)

  datatype Member =
    | FieldMember(name: string, init: LocExpr)
    | LocatorMethod(name: string, params: seq<Param>, body: LocExpr)

  datatype Base = BasePage | BasePanel

  datatype ClassDecl = ClassDecl(
    name: string,
    base: Base,
    path: Option<string>,
    members: seq<Member>,
    methods: seq<MethodDecl>,
    expectedImport: Option<string>,
    playwright: seq<string>)

  function FieldOf(h: Host, page: Page, ref: string): string {
    var fieldMap := FieldMap(h, page.elements);
    if ref in fieldMap then fieldMap[ref] else ref
  }

  function Locate(h: Host, page: Page, ref: string, args: seq<string>): Access {
    var el := ElementByRef(page.elements, ref);
    if el.Some? && IsDynamic(el.value) then CallAccess(FieldOf(h, page, ref), args)
    else FieldAccess(FieldOf(h, page, ref))
  }

  function InputValue(value: Option<string>, param: Option<string>): Value {
    if param.Some? then ParamRef(param.value)
    else if value.Some? then Literal(value.value)
    else Missing
  }

  function PointOperation(p: PointVerb): string {
    match p
    case Click => "click"
    case ClickIfVisible(_) => "clickIfVisible"
    case Hover => "hover"
    case Check => "check"
    case Uncheck => "uncheck"
    case Upload(_) => "setInputFiles"
    case DblClick => "dblclick"
    case Scroll => "scrollIntoViewIfNeeded"
  }

  function EmitAction(h: Host, page: Page, a: Action): seq<Stmt> {
    match a
    case Navigate => [GotoOwnPath]
    case WaitForPageLoad => [WaitForLoad]
    case WaitForURL(pattern) => [PageCall("waitForURL " + pattern)]
    case WaitForResponse(urlPattern) => [PageCall("waitForResponse " + urlPattern)]
    case Press(key) => [PageCall("press " + key)]
    case AcceptDialog => [PageCall("acceptDialog")]
    case DismissDialog => [PageCall("dismissDialog")]
    case Input(verb, ref, args, value, param) =>
      var target := Locate(h, page, ref, args);
      (match verb
       case Fill => [Invoke(target, "fill", Some(InputValue(value, param)))]
       case Select => [Invoke(target, "selectOption", Some(InputValue(value, param)))]
       case Type(clearFirst) =>
         (if clearFirst then [Invoke(target, "clear", None)] else [])
         + [Invoke(target, "pressSequentially", Some(InputValue(value, param)))])
    case Point(p, ref, args) => [Invoke(Locate(h, page, ref, args), PointOperation(p), None)]
    case Drag(ref, args, toRef, toArgs, native) =>
      [DragTo(Locate(h, page, ref, args), Locate(h, page, toRef, toArgs), native)]
  }

  function ArgText(arg: Option<string>): string {
    if arg.Some? then arg.value else ""
  }

  function EmitAssertion(h: Host, page: Page, a: Assertion): seq<Stmt> {
    match a
    case OnPage(matcher, arg) => [ExpectPage(matcher, ArgText(arg))]
    case OnElement(ref, args, waitFor, matcher, arg) =>
      var target := Locate(h, page, ref, args);
      (if waitFor.Some? then [WaitFor(target, waitFor.value)] else [])
      + [ExpectElement(target, matcher, ArgText(arg))]
  }

  function EmitActions(h: Host, page: Page, actions: seq<Action>): seq<Stmt> {
    if actions == [] then []
    else (if page.isPanel && actions[0].Navigate? then [] else EmitAction(h, page, actions[0]))
         + EmitActions(h, page, actions[1..])
  }

  function EmitAssertions(h: Host, page: Page, assertions: seq<Assertion>): seq<Stmt> {
    if assertions == [] then [] else EmitAssertion(h, page, assertions[0]) + EmitAssertions(h, page, assertions[1..])
  }

  function StepMethod(h: Host, page: Page, st: StepDef): MethodDecl {
    MethodDecl(st.name, st.params, EmitActions(h, page, st.actions))
  }

  function VerifyMethod(h: Host, page: Page, v: VerifyDef): MethodDecl {
    MethodDecl(v.name, v.params, EmitAssertions(h, page, v.assertions))
  }

  function Methods(h: Host, page: Page): (r: seq<MethodDecl>)
    ensures |r| == |page.steps| + |page.verifies|
    ensures forall i :: 0 <= i < |page.steps| ==> r[i] == StepMethod(h, page, page.steps[i])
    ensures forall i :: |page.steps| <= i < |r| ==> r[i] == VerifyMethod(h, page, page.verifies[i - |page.steps|])
  {
    seq(|page.steps|, i requires 0 <= i < |page.steps| => StepMethod(h, page, page.steps[i]))
    + seq(|page.verifies|, i requires 0 <= i < |page.verifies| => VerifyMethod(h, page, page.verifies[i]))
  }

  function EmitMember(h: Host, page: Page, el: Element): Result<Member, LocError> {
    match DeriveLocator(el)
    case Err(e) => Err(e)
    case Ok(loc) =>
      if IsDynamic(el) then Ok(LocatorMethod(FieldOf(h, page, el.ref), el.dynParams, loc))
      else Ok(FieldMember(FieldOf(h, page, el.ref), loc))
  }

  function EmitMembers(h: Host, page: Page, els: seq<Element>): (r: Result<seq<Member>, LocError>)
    ensures r.Ok? ==> |r.value| == |els|
                      && forall i :: 0 <= i < |els| ==> EmitMember(h, page, els[i]) == Ok(r.value[i])
    ensures r.Err? ==> exists el :: el in els && DeriveLocator(el).Err?
  {
    if els == [] then Ok([])
    else
      match EmitMember(h, page, els[0])
      case Err(e) => assert els[0] in els; Err(e)
      case Ok(m) =>
        match EmitMembers(h, page, els[1..])
        case Err(e) => Err(e)
        case Ok(rest) => Ok([m] + rest)
  }

  /** pageAssertionUsesExpected */
  predicate UsesExpected(h: Host, page: Page) {
    exists v, a :: v in page.verifies && a in v.assertions && a.arg.Some? && h.expectedKeys(a.arg.value) != []
  }

  predicate HasDynamic(page: Page) {
    exists el :: el in page.elements && IsDynamic(el)
  }

  /** What the file of a page object imports from the test library. */
  function PlaywrightImports(page: Page): seq<string> {
    (if page.verifies != [] then ["expect"] else []) + (if HasDynamic(page) then ["Locator"] else [])
  }

  function BuildPageObject(h: Host, page: Page, barrel: Option<string>): Result<ClassDecl, LocError> {
    match EmitMembers(h, page, page.elements)
    case Err(e) => Err(e)
    case Ok(members) =>
      Ok(ClassDecl(
        page.pageClass,
        if page.isPanel then BasePanel else BasePage,
        if page.isPanel then None else Some(if page.path.Some? then page.path.value else "/"),
        members,
        Methods(h, page),
        if UsesExpected(h, page) then barrel else None,
        PlaywrightImports(page)))
  }

  // ----- Spec and auth setup -----

  predicate IsLineTerminator(c: char) {
    c in {'\n', '\r', '\U{2028}', '\U{2029}'}
  }

  /** replace(/[seps](.)/g, upper-case the captured character) */
  function CamelOn(h: Host, seps: set<char>, s: string): string {
    if s == [] then []
    else if s[0] in seps && |s| > 1 && !IsLineTerminator(s[1]) then h.upper(s[1]) + CamelOn(h, seps, s[2..])
    else [s[0]] + CamelOn(h, seps, s[1..])
  }

  /** The name the generated spec imports: only dashes are camel-cased. */
  function SpecImportName(h: Host, feature: string): string {
    CamelOn(h, {'-'}, feature) + "Expected"
  }

  /** The name the page loader exports, and page objects and auth setup import. */
  function BarrelExport(h: Host, feature: string): string {
    CamelOn(h, {'-', '_'}, feature) + "Expected"
  }

  datatype SpecDecl = SpecDecl(expectedImport: Option<string>, beforeEach: seq<BodyCall>, tests: seq<seq<BodyCall>>)

  function BuildNewSpec(h: Host, s: Schema, feature: string): SpecDecl {
    SpecDecl(
      if HasExpectedData(s) then Some(SpecImportName(h, feature)) else None,
      if s.spec.beforeEach.Some? then s.spec.beforeEach.value else [],
      seq(|s.spec.cases|, i requires 0 <= i < |s.spec.cases| => s.spec.cases[i].body))
  }

  datatype FixtureInit = FixtureInit(fixture: string, pageClass: string)

  datatype AuthDecl = AuthDecl(expectedImport: Option<string>, fixtures: seq<FixtureInit>, calls: seq<BodyCall>)

  datatype GenError = NoCases | FixtureNotFound(fixture: string) | BadLocator(e: LocError)

  function FixtureNames(calls: seq<BodyCall>): seq<string> {
    Text.Distinct(seq(|calls|, i requires 0 <= i < |calls| => calls[i].fixture))
  }

  function FixtureInits(h: Host, s: Schema, names: seq<string>): (r: Result<seq<FixtureInit>, GenError>)
    ensures r.Ok? ==> |r.value| == |names|
    ensures r.Ok? ==> forall i :: 0 <= i < |names| ==>
              FindPage(h, s.pages, names[i]).Some?
              && r.value[i] == FixtureInit(names[i], FindPage(h, s.pages, names[i]).value.pageClass)
    ensures r.Err? ==> exists name :: name in names && FindPage(h, s.pages, name).None?
  {
    if names == [] then Ok([])
    else
      match FindPage(h, s.pages, names[0])
      case None => assert names[0] in names; Err(FixtureNotFound(names[0]))
      case Some(page) =>
        match FixtureInits(h, s, names[1..])
        case Err(e) => Err(e)
        case Ok(rest) => Ok([FixtureInit(names[0], page.pageClass)] + rest)
  }

  function BuildAuthSetup(h: Host, s: Schema, feature: string): Result<AuthDecl, GenError> {
    if s.spec.cases == [] then Err(NoCases)
    else
      var calls := s.spec.cases[0].body;
      match FixtureInits(h, s, FixtureNames(calls))
      case Err(e) => Err(e)
      case Ok(inits) =>
        Ok(AuthDecl(if HasExpectedData(s) then Some(BarrelExport(h, feature)) else None, inits, calls))
  }

  // ----- The create mode -----

  datatype Generated = Generated(
    classes: seq<ClassDecl>,
    expectedExport: Option<string>,
    spec: SpecDecl,
    auth: Option<AuthDecl>)

  /** The page objects of the pages the feature owns, in page order. */
  function BuildOwned(h: Host, pages: seq<Page>, feature: string, barrel: Option<string>): Result<seq<ClassDecl>, LocError> {
    if pages == [] then Ok([])
    else if pages[0].ownedBy != feature then BuildOwned(h, pages[1..], feature, barrel)
    else
      match BuildPageObject(h, pages[0], barrel)
      case Err(e) => Err(e)
      case Ok(cls) =>
        match BuildOwned(h, pages[1..], feature, barrel)
        case Err(e) => Err(e)
        case Ok(rest) => Ok([cls] + rest)
  }

  function Barrel(h: Host, s: Schema, feature: string): Option<string> {
    if s.expected.Some? then Some(BarrelExport(h, feature)) else None
  }

  /** The name under which the page loader exports the test data. */
  function ExpectedExport(h: Host, s: Schema, feature: string): Option<string> {
    if HasExpectedData(s) then Some(BarrelExport(h, feature)) else None
  }

  function Generate(h: Host, s: Schema, feature: string): Result<Generated, GenError> {
    match BuildOwned(h, s.pages, feature, Barrel(h, s, feature))
    case Err(e) => Err(BadLocator(e))
    case Ok(classes) =>
      var barrelExport := ExpectedExport(h, s, feature);
      var spec := BuildNewSpec(h, s, feature);
      if s.spec.generatesStorageState.None? then Ok(Generated(classes, barrelExport, spec, None))
      else
        match BuildAuthSetup(h, s, feature)
        case Err(e) => Err(e)
        case Ok(auth) => Ok(Generated(classes, barrelExport, spec, Some(auth)))
  }
}
