/** The parsed input of the code generator (apps/runtime-mcp/src/codegen/schema.ts and
    packages/protocol/src/runtime/locator.ts). An optional array that the code reads through
    `?? []` is modelled by a sequence, empty when absent. */
module CodegenSchema {
  import opened Option

  datatype Param = Param(name: string, ty: string)

  datatype Strategy =
    | TestId | TestIdXPath | DomId | RoleName | Label | Placeholder
    | ByText | AttrCombo | Scoped | SiblingText | Nth

  datatype Container = Container(role: string, name: string)

  datatype Locator = Locator(
    strategy: Strategy,
    attr: Option<string>,
    value: Option<string>,
    role: Option<string>,
    name: Option<string>,
    xpath: Option<string>,
    container: Option<Container>,
    framePath: seq<Locator>)

  datatype Element = Element(
    ref: string,
    tag: string,
    testid: Option<string>,
    testidAttr: Option<string>,
    name: Option<string>,
    role: Option<string>,
    dynParams: seq<Param>,
    locator: Option<Locator>)

  datatype InputVerb = Fill | Type(clearFirst: bool) | Select

  datatype PointVerb =
    | Click | ClickIfVisible(timeout: Option<nat>) | Hover | Check | Uncheck
    | Upload(files: seq<string>) | DblClick | Scroll

  datatype Action =
    | Navigate
    | WaitForPageLoad
    | WaitForURL(pattern: string)
    | WaitForResponse(urlPattern: string)
    | Press(key: string)
    | AcceptDialog
    | DismissDialog
    | Input(verb: InputVerb, ref: string, refArgs: seq<string>, value: Option<string>, param: Option<string>)
    | Point(point: PointVerb, ref: string, refArgs: seq<string>)
    | Drag(ref: string, refArgs: seq<string>, toRef: string, toRefArgs: seq<string>, native: bool)

  datatype Assertion =
    | OnPage(matcher: string, arg: Option<string>)
    | OnElement(ref: string, refArgs: seq<string>, waitFor: Option<string>, matcher: string, arg: Option<string>)

  datatype StepDef = StepDef(name: string, params: seq<Param>, actions: seq<Action>)

  datatype VerifyDef = VerifyDef(name: string, params: seq<Param>, assertions: seq<Assertion>)

  datatype Page = Page(
    pageClass: string,
    path: Option<string>,
    ownedBy: string,
    isPanel: bool,
    elements: seq<Element>,
    steps: seq<StepDef>,
    verifies: seq<VerifyDef>)

  datatype BodyCall = BodyCall(fixture: string, call: string, args: seq<string>)

  datatype TestCase = TestCase(
    acId: string,
    scenario: string,
    title: string,
    annotation: Option<string>,
    body: seq<BodyCall>)

  datatype Spec = Spec(
    suite: string,
    generatesStorageState: Option<string>,
    storageState: Option<string>,
    beforeEach: Option<seq<BodyCall>>,
    cases: seq<TestCase>)

  /** One own member of the `expected` record; its text is kept when the value is a string. */
  datatype ExpectedEntry = ExpectedEntry(key: string, text: Option<string>)

  datatype Schema = Schema(
    pages: seq<Page>,
    expected: Option<seq<ExpectedEntry>>,
    observedEndpoints: seq<string>,
    spec: Spec)

  /** Object.keys(expected) */
  function ExpectedKeys(s: Schema): Option<seq<string>> {
    match s.expected
    case None => None
    case Some(entries) => Some(seq(|entries|, i requires 0 <= i < |entries| => entries[i].key))
  }

  predicate HasExpectedData(s: Schema) {
    s.expected.Some? && s.expected.value != []
  }

  /** The patterns that some rules test texts against. */
  datatype Patterns = Patterns(
    credentialRef: string -> bool,
    emailValue: string -> bool,
    quotedEnv: string -> bool,
    malformedGlob: string -> bool,
    baseUrlUnsafe: string -> bool,
    regexLiteral: string -> bool,
    stringLiteral: string -> Option<string>)

  /** What the model takes from the host language without looking inside: camel-casing, lower- and
      upper-casing, the pattern that finds the keys k of the `expected.k` in a text, and the TypeScript compiler's
      reading of an expression: whether it is one, the names it mentions that are not global, `expected` included,
      the keys it reads off that name, whether it stays inside the parentheses it is put in (as `) => (1` does not),
      and the arguments it amounts to in an argument list: [e] if it stays inside and no comma splits it. */
  datatype Host = Host(
    camelCase: string -> string,
    lower: string -> string,
    upper: char -> string,
    validExpr: string -> bool,
    expectedKeys: string -> seq<string>,
    freeNames: string -> seq<string>,
    readKeys: string -> seq<string>,
    enclosed: string -> bool,
    operands: string -> seq<string>,
    patterns: Patterns)

  /** What schema parsing has already enforced (schema.ts:180-238) before any check runs. */
  ghost predicate Parsed(s: Schema) {
    && s.spec.cases != []
    && (forall c :: c in s.spec.cases ==> c.body != [])
    && (forall p, st :: p in s.pages && st in p.steps ==> "step_" <= st.name)
    && (forall p, v :: p in s.pages && v in p.verifies ==> "verify_" <= v.name)
  }

  function FixtureName(h: Host, pageClass: string): string {
    if pageClass == "" then "" else h.lower([pageClass[0]]) + pageClass[1..]
  }

  /** Array.find: the first page whose fixture name is the given one. */
  function FindPage(h: Host, pages: seq<Page>, fixture: string): (r: Option<Page>)
    ensures r.Some? ==> r.value in pages && FixtureName(h, r.value.pageClass) == fixture
    ensures r.None? ==> forall p :: p in pages ==> FixtureName(h, p.pageClass) != fixture
  {
    if pages == [] then None
    else if FixtureName(h, pages[0].pageClass) == fixture then Some(pages[0])
    else FindPage(h, pages[1..], fixture)
  }

  /** A Map built from the elements in order: the last element with a ref wins. */
  function ElementByRef(elements: seq<Element>, ref: string): (r: Option<Element>)
    ensures r.Some? ==> r.value in elements && r.value.ref == ref
    ensures r.None? ==> forall e :: e in elements ==> e.ref != ref
  {
    if elements == [] then None
    else
      var n := |elements| - 1;
      assert elements == elements[..n] + [elements[n]];
      if elements[n].ref == ref then Some(elements[n]) else ElementByRef(elements[..n], ref)
  }
}
