/** The whole create mode: page objects, spec, auth setup and the names they share. */
module CodegenTheorem {
  import opened Option
  import opened CodegenSchema
  import opened CodegenLocator
  import opened CodegenChecker
  import opened CodegenEmit
  import opened CodegenResolution
  import opened CodegenSoundness
  import Text

  // ----- When the generated program resolves -----

  ghost predicate HasMethod(cls: ClassDecl, b: BodyCall) {
    exists m :: m in cls.methods && m.name == b.call && |m.params| == |b.args|
  }

  /** Class k alone has the call's fixture name, and it has the method with that arity. */
  ghost predicate HitsAt(h: Host, classes: seq<ClassDecl>, b: BodyCall, k: nat) {
    && k < |classes| && FixtureName(h, classes[k].name) == b.fixture && HasMethod(classes[k], b)
    && forall j :: 0 <= j < |classes| && j != k ==> FixtureName(h, classes[j].name) != b.fixture
  }

  /** The call's fixture belongs to exactly one generated class, which has the method with that arity, and
      each argument reaches its own parameter. */
  ghost predicate CallResolves(h: Host, out: Generated, b: BodyCall) {
    ReadsBack(h, b.args) && exists k :: HitsAt(h, out.classes, b, k)
  }

  ghost predicate ArgsResolve(h: Host, s: Schema, scope: Scope, b: BodyCall) {
    forall e :: e in b.args ==> ExprResolves(h, ExpectedKeys(s), scope, e)
  }

  ghost predicate CallsResolve(h: Host, s: Schema, out: Generated, scope: Scope, calls: seq<BodyCall>) {
    forall b :: b in calls ==> CallResolves(h, out, b) && ArgsResolve(h, s, scope, b)
  }

  /** The names a test function destructures: the fixtures its calls mention. */
  function Fixtures(calls: seq<BodyCall>): set<string> {
    set b | b in calls :: b.fixture
  }

  /** A test function of the spec file, which imports `test`. */
  function TestScope(importsExpected: bool, calls: seq<BodyCall>): Scope {
    Scope({"test"}, importsExpected, Fixtures(calls))
  }

  /** The test data is imported under its exported name, and every call of every test resolves. */
  ghost predicate SpecResolves(h: Host, s: Schema, out: Generated) {
    var imported := out.spec.expectedImport.Some?;
    && out.spec.expectedImport == out.expectedExport
    && CallsResolve(h, s, out, TestScope(imported, out.spec.beforeEach), out.spec.beforeEach)
    && forall t :: t in out.spec.tests ==> CallsResolve(h, s, out, TestScope(imported, t), t)
  }

  // ----- The setup function -----

  /** Its own names: the parameter `page` and the fixtures it declares. */
  function SetupLocals(auth: AuthDecl): set<string> {
    {"page"} + set f | f in auth.fixtures :: f.fixture
  }

  /** What its file imports besides the classes. */
  function SetupImports(importsExpected: bool): set<string> {
    {"setup"} + if importsExpected then {"expected"} else {}
  }

  function SetupScope(auth: AuthDecl): Scope {
    Scope({"setup"} + (set f | f in auth.fixtures :: f.pageClass), auth.expectedImport.Some?, SetupLocals(auth))
  }

  ghost predicate ClassNamed(h: Host, classes: seq<ClassDecl>, f: FixtureInit) {
    exists cls :: cls in classes && cls.name == f.pageClass && FixtureName(h, cls.name) == f.fixture
  }

  /** const f = new C(page): f is no second `page`; C is a generated class, is imported once, and no local name
      hides it, its own fixture included. */
  ghost predicate InitResolves(h: Host, classes: seq<ClassDecl>, locals: set<string>, imports: set<string>, f: FixtureInit) {
    && ClassNamed(h, classes, f)
    && f.fixture != "page"
    && f.pageClass !in locals && f.pageClass !in imports
  }

  /** Each declaration of a fixture resolves, every call uses a declared fixture and resolves, and the imported
      data is the exported one. */
  ghost predicate AuthResolves(h: Host, s: Schema, out: Generated, auth: AuthDecl) {
    && auth.expectedImport == out.expectedExport
    && CallsResolve(h, s, out, SetupScope(auth), auth.calls)
    && (forall b :: b in auth.calls ==> exists f :: f in auth.fixtures && f.fixture == b.fixture)
    && (forall f :: f in auth.fixtures ==>
          InitResolves(h, out.classes, SetupLocals(auth), SetupImports(auth.expectedImport.Some?), f))
  }

  // ----- The rules the checker does not have -----

  /** Page k of the feature alone has the call's fixture name, and it has the method with that arity. */
  ghost predicate OwnedAt(h: Host, owned: seq<Page>, b: BodyCall, k: nat) {
    && k < |owned| && FixtureName(h, owned[k].pageClass) == b.fixture && MethodArity(owned[k], b.call) == Some(|b.args|)
    && forall j :: 0 <= j < |owned| && j != k ==> FixtureName(h, owned[j].pageClass) != b.fixture
  }

  ghost predicate CallOwned(h: Host, s: Schema, feature: string, b: BodyCall) {
    exists k :: OwnedAt(h, Owned(s.pages, feature), b, k)
  }

  ghost predicate ArgsSound(h: Host, s: Schema, scope: Scope, b: BodyCall) {
    forall e :: e in b.args ==> IsArgument(h, e) && NamesResolve(h, ExpectedKeys(s), scope, e)
  }

  ghost predicate CallsSound(h: Host, s: Schema, feature: string, scope: Scope, calls: seq<BodyCall>) {
    forall b :: b in calls ==> CallOwned(h, s, feature, b) && ArgsSound(h, s, scope, b)
  }

  function BeforeEach(s: Schema): seq<BodyCall> {
    if s.spec.beforeEach.Some? then s.spec.beforeEach.value else []
  }

  ghost predicate SpecSound(h: Host, s: Schema, feature: string) {
    && (HasExpectedData(s) ==> !UnderscoreIsCamelCased(feature))
    && CallsSound(h, s, feature, TestScope(HasExpectedData(s), BeforeEach(s)), BeforeEach(s))
    && forall tc :: tc in s.spec.cases ==> CallsSound(h, s, feature, TestScope(HasExpectedData(s), tc.body), tc.body)
  }

  /** The first page of the schema with the fixture name, which the setup instantiates, has the class name
      of a page of the feature. */
  ghost predicate FirstIsOwned(h: Host, s: Schema, feature: string, fixture: string) {
    && FindPage(h, s.pages, fixture).Some?
    && exists p :: p in Owned(s.pages, feature) && p.pageClass == FindPage(h, s.pages, fixture).value.pageClass
  }

  /** The classes the setup of these calls instantiates. */
  function FirstClasses(h: Host, s: Schema, calls: seq<BodyCall>): set<string> {
    set b | b in calls && FindPage(h, s.pages, b.fixture).Some? :: FindPage(h, s.pages, b.fixture).value.pageClass
  }

  function CallsScope(h: Host, s: Schema, calls: seq<BodyCall>): Scope {
    Scope({"setup"} + FirstClasses(h, s, calls), HasExpectedData(s), {"page"} + Fixtures(calls))
  }

  /** The fixture can be declared in the setup of these calls. */
  ghost predicate InitSound(h: Host, s: Schema, feature: string, calls: seq<BodyCall>, fixture: string) {
    && FirstIsOwned(h, s, feature, fixture)
    && fixture != "page"
    && var pageClass := FindPage(h, s.pages, fixture).value.pageClass;
       pageClass !in {"page"} + Fixtures(calls) && pageClass !in SetupImports(HasExpectedData(s))
  }

  ghost predicate AuthSound(h: Host, s: Schema, feature: string)
    requires s.spec.cases != []
  {
    var calls := s.spec.cases[0].body;
    && CallsSound(h, s, feature, CallsScope(h, s, calls), calls)
    && forall b :: b in calls ==> InitSound(h, s, feature, calls, b.fixture)
  }

  ghost predicate DistinctFixtures(h: Host, pages: seq<Page>) {
    forall i, j :: 0 <= i < j < |pages| ==> FixtureName(h, pages[i].pageClass) != FixtureName(h, pages[j].pageClass)
  }

  // ----- Owned pages -----

  function Owned(pages: seq<Page>, feature: string): (r: seq<Page>)
    ensures forall p :: p in r <==> p in pages && p.ownedBy == feature
  {
    if pages == [] then []
    else (if pages[0].ownedBy == feature then [pages[0]] else []) + Owned(pages[1..], feature)
  }

  type Builder = Page -> Result<ClassDecl, LocError>

  function PageBuilder(h: Host, barrel: Option<string>): Builder {
    (p: Page) => BuildPageObject(h, p, barrel)
  }

  ghost predicate BuiltFrom(build: Builder, pages: seq<Page>, classes: seq<ClassDecl>) {
    && |classes| == |pages|
    && forall i :: 0 <= i < |classes| ==> build(pages[i]) == Ok(classes[i])
  }

  lemma BuiltFromCons(build: Builder, page: Page, pages: seq<Page>, cls: ClassDecl, classes: seq<ClassDecl>)
    requires build(page) == Ok(cls) && BuiltFrom(build, pages, classes)
    ensures BuiltFrom(build, [page] + pages, [cls] + classes)
  {
    assert forall i :: 1 <= i < |[page] + pages| ==> ([page] + pages)[i] == pages[i - 1];
  }

  lemma {:induction false} OwnedBuild(h: Host, pages: seq<Page>, feature: string, barrel: Option<string>)
    requires forall p :: p in pages ==> PageTyped(h, p)
    ensures BuildOwned(h, pages, feature, barrel).Ok?
    ensures BuiltFrom(PageBuilder(h, barrel), Owned(pages, feature), BuildOwned(h, pages, feature, barrel).value)
  {
    if pages != [] {
      assert pages[0] in pages && forall p :: p in pages[1..] ==> p in pages;
      OwnedBuild(h, pages[1..], feature, barrel);
      if pages[0].ownedBy == feature {
        TypedPageBuilds(h, pages[0], barrel);
        BuiltFromCons(PageBuilder(h, barrel), pages[0], Owned(pages[1..], feature),
                      BuildPageObject(h, pages[0], barrel).value, BuildOwned(h, pages[1..], feature, barrel).value);
      } else {
        assert Owned(pages, feature) == Owned(pages[1..], feature);
      }
    }
  }

  lemma {:induction false} OwnedFixturesDistinct(h: Host, pages: seq<Page>, feature: string)
    requires DistinctFixtures(h, pages)
    ensures DistinctFixtures(h, Owned(pages, feature))
  {
    if pages != [] {
      assert DistinctFixtures(h, pages[1..]) by {
        forall i, j | 0 <= i < j < |pages| - 1
          ensures FixtureName(h, pages[1..][i].pageClass) != FixtureName(h, pages[1..][j].pageClass)
        {
          assert pages[i + 1] == pages[1..][i] && pages[j + 1] == pages[1..][j];
        }
      }
      OwnedFixturesDistinct(h, pages[1..], feature);
      var rest := Owned(pages[1..], feature);
      forall j | 0 <= j < |rest|
        ensures FixtureName(h, pages[0].pageClass) != FixtureName(h, rest[j].pageClass)
      {
        var k :| 0 <= k < |pages[1..]| && pages[1..][k] == rest[j];
        assert pages[k + 1] == rest[j];
      }
    }
  }

  lemma UniquePage(h: Host, s: Schema, fixture: string)
    requires DistinctFixtures(h, s.pages)
    ensures FindPage(h, s.pages, fixture) == LastPage(h, s.pages, fixture)
  {
    var a, b := FindPage(h, s.pages, fixture), LastPage(h, s.pages, fixture);
    if a.Some? {
      var i :| 0 <= i < |s.pages| && s.pages[i] == a.value;
      var j :| 0 <= j < |s.pages| && s.pages[j] == b.value;
      assert i == j;
    }
  }

  lemma {:induction false} InCasesCalls(cases: seq<TestCase>, c: TestCase)
    requires c in cases
    ensures forall b :: b in c.body ==> b in CasesCalls(cases)
  {
    if c != cases[0] {
      InCasesCalls(cases[1..], c);
    }
  }

  lemma ArityIsDeclared(h: Host, page: Page, call: string)
    requires MethodArity(page, call).Some?
    ensures exists m :: m in Methods(h, page) && m.name == call && |m.params| == MethodArity(page, call).value
  {
    var methods := Methods(h, page);
    var v := LastVerify(page.verifies, call);
    if v.Some? {
      var i :| 0 <= i < |page.verifies| && page.verifies[i] == v.value;
      assert methods[|page.steps| + i] == VerifyMethod(h, page, v.value);
    } else {
      var st := LastStep(page.steps, call).value;
      var i :| 0 <= i < |page.steps| && page.steps[i] == st;
      assert methods[i] == StepMethod(h, page, st);
    }
  }

  // ----- Unpacking acceptance -----

  lemma AcceptedPages(h: Host, s: Schema, feature: string)
    requires WellTyped(h, s, feature)
    ensures forall p :: p in s.pages ==> PageTyped(h, p) && PageExprsTyped(h, s, p)
  {
    forall p, c | p in s.pages ensures !PageBreaks(h, p, c) && !PageExprBreaks(h, s, p, c) {
      assert !SchemaBreaks(h, s, feature, c);
    }
  }

  lemma AcceptedCall(h: Host, s: Schema, feature: string, b: BodyCall)
    requires WellTyped(h, s, feature) && b in SpecCalls(s)
    ensures forall c :: !CallBreaks(h, s, b, c) && !CallExprBreaks(h, s, b, c)
    ensures !OwnerBreaks(h, s, feature, b)
  {
    forall c ensures !CallBreaks(h, s, b, c) && !CallExprBreaks(h, s, b, c) {
      assert !SchemaBreaks(h, s, feature, c);
    }
    assert !SchemaBreaks(h, s, feature, OwnedByMismatch);
  }

  lemma UnbrokenCall(h: Host, s: Schema, b: BodyCall)
    requires forall c :: !CallBreaks(h, s, b, c)
    ensures FindPage(h, s.pages, b.fixture).Some?
    ensures MethodArity(FindPage(h, s.pages, b.fixture).value, b.call) == Some(|b.args|)
    ensures AllValid(h, b.args)
  {
    assert !CallBreaks(h, s, b, UnknownFixture) && !CallBreaks(h, s, b, UnknownBodyCall);
    assert !CallBreaks(h, s, b, BodyCallArgCount) && !CallBreaks(h, s, b, InvalidBodyCallArg);
  }

  /** The classes are those of the feature's pages, in order. */
  ghost predicate ClassesOf(h: Host, owned: seq<Page>, classes: seq<ClassDecl>) {
    && |classes| == |owned|
    && forall k :: 0 <= k < |owned| ==> classes[k].name == owned[k].pageClass && classes[k].methods == Methods(h, owned[k])
  }

  lemma OwnedClasses(h: Host, s: Schema, feature: string)
    requires WellTyped(h, s, feature)
    ensures BuildOwned(h, s.pages, feature, Barrel(h, s, feature)).Ok?
    ensures ClassesOf(h, Owned(s.pages, feature), BuildOwned(h, s.pages, feature, Barrel(h, s, feature)).value)
  {
    AcceptedPages(h, s, feature);
    OwnedBuild(h, s.pages, feature, Barrel(h, s, feature));
    var owned, classes := Owned(s.pages, feature), BuildOwned(h, s.pages, feature, Barrel(h, s, feature)).value;
    forall k | 0 <= k < |owned|
      ensures classes[k].name == owned[k].pageClass && classes[k].methods == Methods(h, owned[k])
    {
      assert PageBuilder(h, Barrel(h, s, feature))(owned[k]) == Ok(classes[k]);
    }
  }

  // ----- Calls -----

  lemma NamedMethod(h: Host, page: Page, m: MethodDecl)
    requires m in Methods(h, page)
    ensures MethodArity(page, m.name).Some?
  {
    var i :| 0 <= i < |Methods(h, page)| && Methods(h, page)[i] == m;
    if i < |page.steps| {
      assert page.steps[i] in page.steps && page.steps[i].name == m.name;
    } else {
      assert page.verifies[i - |page.steps|] in page.verifies && page.verifies[i - |page.steps|].name == m.name;
    }
  }

  lemma OneMethodPerName(methods: seq<MethodDecl>, m: MethodDecl, d: MethodDecl)
    requires forall i, j :: 0 <= i < j < |methods| ==> methods[i].name != methods[j].name
    requires m in methods && d in methods && m.name == d.name
    ensures m == d
  {
    var i :| 0 <= i < |methods| && methods[i] == m;
    var j :| 0 <= j < |methods| && methods[j] == d;
    assert !(i < j) && !(j < i);
  }

  lemma DeclaredArity(h: Host, page: Page, m: MethodDecl)
    requires PageTyped(h, page) && MethodsPrefixed(page) && m in Methods(h, page)
    ensures MethodArity(page, m.name) == Some(|m.params|)
  {
    MethodNameFacts(h, page);
    NamedMethod(h, page, m);
    ArityIsDeclared(h, page, m.name);
    var d :| d in Methods(h, page) && d.name == m.name && |d.params| == MethodArity(page, m.name).value;
    OneMethodPerName(Methods(h, page), m, d);
  }

  /** The class of an accepted page has a method with a name and an arity if and only if the page does. */
  lemma HasMethodIff(h: Host, page: Page, cls: ClassDecl, b: BodyCall)
    requires PageTyped(h, page) && MethodsPrefixed(page) && cls.methods == Methods(h, page)
    ensures HasMethod(cls, b) <==> MethodArity(page, b.call) == Some(|b.args|)
  {
    if HasMethod(cls, b) {
      var m :| m in cls.methods && m.name == b.call && |m.params| == |b.args|;
      DeclaredArity(h, page, m);
    } else if MethodArity(page, b.call) == Some(|b.args|) {
      ArityIsDeclared(h, page, b.call);
    }
  }

  lemma HitsIff(h: Host, owned: seq<Page>, classes: seq<ClassDecl>, b: BodyCall, k: nat)
    requires ClassesOf(h, owned, classes)
    requires forall p :: p in owned ==> PageTyped(h, p) && MethodsPrefixed(p)
    ensures HitsAt(h, classes, b, k) <==> OwnedAt(h, owned, b, k)
  {
    if k < |owned| {
      HasMethodIff(h, owned[k], classes[k], b);
    }
  }

  /** What the checker is worth to an argument of a call: where the pattern sees every use and every key of
      `expected`, only its other names are left to the caller, and that no fixture hides it. */
  lemma SeenCallReadsResolveIff(h: Host, s: Schema, feature: string, b: BodyCall, scope: Scope, e: string)
    requires WellTyped(h, s, feature) && b in SpecCalls(s) && e in b.args
    requires scope.imported == HasExpectedData(s)
    requires "expected" in h.freeNames(e) ==>
               h.expectedKeys(e) != [] && forall k :: k in h.readKeys(e) ==> k in h.expectedKeys(e)
    ensures NamesResolve(h, ExpectedKeys(s), scope, e) <==>
            && (forall n :: n in h.freeNames(e) && n != "expected" ==> n in scope.locals || n in scope.file)
            && ("expected" in h.freeNames(e) ==> "expected" !in scope.locals)
  {
    AcceptedCall(h, s, feature, b);
    assert !CallExprBreaks(h, s, b, ExpectedBlockMissing) && !CallExprBreaks(h, s, b, UnknownExpectedKey);
    assert !ExprBreaks(h, s, e, ExpectedBlockMissing) && !ExprBreaks(h, s, e, UnknownExpectedKey);
    if "expected" in h.freeNames(e) {
      assert h.expectedKeys(e)[0] in ExpectedKeys(s).value;
    }
  }

  lemma ArgsResolveIff(h: Host, s: Schema, feature: string, b: BodyCall, scope: Scope)
    requires HostOk(h) && WellTyped(h, s, feature) && b in SpecCalls(s)
    ensures ReadsBack(h, b.args) && ArgsResolve(h, s, scope, b) <==> ArgsSound(h, s, scope, b)
  {
    ReadsBackIff(h, b.args);
    AcceptedCall(h, s, feature, b);
    UnbrokenCall(h, s, b);
  }

  /** Accepted calls resolve if and only if each is of exactly one page of the feature, which has the method
      with the arity, and its arguments are sound. */
  lemma CallsResolveIff(h: Host, s: Schema, feature: string, scope: Scope, calls: seq<BodyCall>, out: Generated)
    requires HostOk(h) && Parsed(s) && WellTyped(h, s, feature)
    requires forall b :: b in calls ==> b in SpecCalls(s)
    requires BuildOwned(h, s.pages, feature, Barrel(h, s, feature)) == Ok(out.classes)
    ensures CallsResolve(h, s, out, scope, calls) <==> CallsSound(h, s, feature, scope, calls)
  {
    AcceptedPages(h, s, feature);
    OwnedClasses(h, s, feature);
    forall b | b in calls
      ensures CallResolves(h, out, b) && ArgsResolve(h, s, scope, b)
              <==> CallOwned(h, s, feature, b) && ArgsSound(h, s, scope, b)
    {
      ArgsResolveIff(h, s, feature, b, scope);
      HitIsOwned(h, Owned(s.pages, feature), out.classes, b);
    }
  }

  lemma HitIsOwned(h: Host, owned: seq<Page>, classes: seq<ClassDecl>, b: BodyCall)
    requires ClassesOf(h, owned, classes)
    requires forall p :: p in owned ==> PageTyped(h, p) && MethodsPrefixed(p)
    ensures (exists k :: HitsAt(h, classes, b, k)) <==> (exists k :: OwnedAt(h, owned, b, k))
  {
    forall k: nat
      ensures HitsAt(h, classes, b, k) <==> OwnedAt(h, owned, b, k)
    {
      HitsIff(h, owned, classes, b, k);
    }
  }

  lemma FirstCaseCalls(s: Schema)
    requires s.spec.cases != []
    ensures forall b :: b in s.spec.cases[0].body ==> b in SpecCalls(s)
  {
    InCasesCalls(s.spec.cases, s.spec.cases[0]);
  }

  lemma FixtureNamesOf(calls: seq<BodyCall>)
    ensures forall name :: name in FixtureNames(calls) <==> exists b :: b in calls && b.fixture == name
  {
    var names := seq(|calls|, i requires 0 <= i < |calls| => calls[i].fixture);
    forall b | b in calls ensures b.fixture in FixtureNames(calls) {
      var i :| 0 <= i < |calls| && calls[i] == b;
      assert names[i] == b.fixture;
    }
    forall name | name in FixtureNames(calls) ensures exists b :: b in calls && b.fixture == name {
      var i :| 0 <= i < |names| && names[i] == name;
      assert calls[i] in calls;
    }
  }

  lemma SetupCovers(h: Host, s: Schema, calls: seq<BodyCall>, b: BodyCall)
    requires FixtureInits(h, s, FixtureNames(calls)).Ok? && b in calls
    ensures exists f :: f in FixtureInits(h, s, FixtureNames(calls)).value && f.fixture == b.fixture
  {
    FixtureNamesOf(calls);
    var names, inits := FixtureNames(calls), FixtureInits(h, s, FixtureNames(calls)).value;
    assert b.fixture in names;
    var i :| 0 <= i < |names| && names[i] == b.fixture;
    assert inits[i] in inits;
  }

  lemma SetupInit(h: Host, s: Schema, names: seq<string>, f: FixtureInit)
    requires FixtureInits(h, s, names).Ok? && f in FixtureInits(h, s, names).value
    ensures f.fixture in names
    ensures FindPage(h, s.pages, f.fixture).Some? && f.pageClass == FindPage(h, s.pages, f.fixture).value.pageClass
    ensures FixtureName(h, f.pageClass) == f.fixture
  {
    var inits := FixtureInits(h, s, names).value;
    var i :| 0 <= i < |inits| && inits[i] == f;
  }

  // ----- The auth setup -----

  lemma SetupBuilds(h: Host, s: Schema, feature: string)
    requires Parsed(s) && WellTyped(h, s, feature)
    ensures BuildAuthSetup(h, s, feature).Ok?
  {
    var calls := s.spec.cases[0].body;
    FirstCaseCalls(s);
    FixtureNamesOf(calls);
    forall name | name in FixtureNames(calls)
      ensures FindPage(h, s.pages, name).Some?
    {
      var b :| b in calls && b.fixture == name;
      AcceptedCall(h, s, feature, b);
      UnbrokenCall(h, s, b);
    }
  }

  lemma SomeNamedIff(owned: seq<Page>, classes: seq<ClassDecl>, name: string)
    requires |classes| == |owned| && forall k :: 0 <= k < |owned| ==> classes[k].name == owned[k].pageClass
    ensures (exists cls :: cls in classes && cls.name == name) <==> (exists p :: p in owned && p.pageClass == name)
  {
    if cls :| cls in classes && cls.name == name {
      var k :| 0 <= k < |classes| && classes[k] == cls;
      assert owned[k] in owned;
    }
    if p :| p in owned && p.pageClass == name {
      var k :| 0 <= k < |owned| && owned[k] == p;
      assert classes[k] in classes;
    }
  }

  lemma ClassNamedIff(h: Host, s: Schema, feature: string, classes: seq<ClassDecl>, names: seq<string>, f: FixtureInit)
    requires FixtureInits(h, s, names).Ok? && f in FixtureInits(h, s, names).value
    requires ClassesOf(h, Owned(s.pages, feature), classes)
    ensures f.fixture in names
    ensures ClassNamed(h, classes, f) <==> FirstIsOwned(h, s, feature, f.fixture)
  {
    SetupInit(h, s, names, f);
    SomeNamedIff(Owned(s.pages, feature), classes, f.pageClass);
  }

  lemma InitIff(h: Host, s: Schema, feature: string, classes: seq<ClassDecl>, calls: seq<BodyCall>, f: FixtureInit)
    requires FixtureInits(h, s, FixtureNames(calls)).Ok? && f in FixtureInits(h, s, FixtureNames(calls)).value
    requires ClassesOf(h, Owned(s.pages, feature), classes)
    ensures InitResolves(h, classes, {"page"} + Fixtures(calls), SetupImports(HasExpectedData(s)), f)
            <==> InitSound(h, s, feature, calls, f.fixture)
  {
    SetupInit(h, s, FixtureNames(calls), f);
    ClassNamedIff(h, s, feature, classes, FixtureNames(calls), f);
  }

  /** The declared fixtures resolve if and only if the first page of each called fixture allows it. */
  lemma SetupNamedIff(h: Host, s: Schema, feature: string, classes: seq<ClassDecl>, calls: seq<BodyCall>)
    requires FixtureInits(h, s, FixtureNames(calls)).Ok?
    requires ClassesOf(h, Owned(s.pages, feature), classes)
    ensures forall b :: b in calls ==> exists f :: f in FixtureInits(h, s, FixtureNames(calls)).value && f.fixture == b.fixture
    ensures (forall f :: f in FixtureInits(h, s, FixtureNames(calls)).value ==>
               InitResolves(h, classes, {"page"} + Fixtures(calls), SetupImports(HasExpectedData(s)), f))
            <==> (forall b :: b in calls ==> InitSound(h, s, feature, calls, b.fixture))
  {
    var inits := FixtureInits(h, s, FixtureNames(calls)).value;
    FixtureNamesOf(calls);
    forall b | b in calls
      ensures exists f :: f in inits && f.fixture == b.fixture
    {
      SetupCovers(h, s, calls, b);
    }
    forall f | f in inits
      ensures f.fixture in FixtureNames(calls)
      ensures InitResolves(h, classes, {"page"} + Fixtures(calls), SetupImports(HasExpectedData(s)), f)
              <==> InitSound(h, s, feature, calls, f.fixture)
    {
      SetupInit(h, s, FixtureNames(calls), f);
      InitIff(h, s, feature, classes, calls, f);
    }
    if forall f :: f in inits ==> InitResolves(h, classes, {"page"} + Fixtures(calls), SetupImports(HasExpectedData(s)), f) {
      forall b | b in calls
        ensures InitSound(h, s, feature, calls, b.fixture)
      {
        var f :| f in inits && f.fixture == b.fixture;
      }
    }
  }

  /** The names of the setup function are those its calls say. */
  lemma SetupNames(h: Host, s: Schema, calls: seq<BodyCall>, auth: AuthDecl)
    requires FixtureInits(h, s, FixtureNames(calls)) == Ok(auth.fixtures)
    requires auth.expectedImport.Some? <==> HasExpectedData(s)
    ensures SetupLocals(auth) == {"page"} + Fixtures(calls)
    ensures SetupScope(auth) == CallsScope(h, s, calls)
  {
    FixtureNamesOf(calls);
    forall f | f in auth.fixtures
      ensures f.fixture in Fixtures(calls) && f.pageClass in FirstClasses(h, s, calls)
    {
      SetupInit(h, s, FixtureNames(calls), f);
    }
    forall b | b in calls
      ensures exists f :: f in auth.fixtures && f.fixture == b.fixture
                          && FindPage(h, s.pages, b.fixture).Some?
                          && f.pageClass == FindPage(h, s.pages, b.fixture).value.pageClass
    {
      SetupCovers(h, s, calls, b);
      var f :| f in auth.fixtures && f.fixture == b.fixture;
      SetupInit(h, s, FixtureNames(calls), f);
    }
  }

  /** The auth setup never throws, and it resolves if and only if its calls do and the first page of each
      fixture it declares is one of the feature whose class and fixture clash with no other name of the setup. */
  lemma AuthSoundIff(h: Host, s: Schema, feature: string, out: Generated)
    requires HostOk(h) && Parsed(s) && WellTyped(h, s, feature)
    requires BuildOwned(h, s.pages, feature, Barrel(h, s, feature)) == Ok(out.classes)
    requires out.expectedExport == ExpectedExport(h, s, feature)
    ensures BuildAuthSetup(h, s, feature).Ok?
    ensures AuthResolves(h, s, out, BuildAuthSetup(h, s, feature).value) <==> AuthSound(h, s, feature)
  {
    var calls := s.spec.cases[0].body;
    SetupBuilds(h, s, feature);
    FirstCaseCalls(s);
    OwnedClasses(h, s, feature);
    var auth := BuildAuthSetup(h, s, feature).value;
    SetupNames(h, s, calls, auth);
    CallsResolveIff(h, s, feature, CallsScope(h, s, calls), calls, out);
    SetupNamedIff(h, s, feature, out.classes, calls);
  }

  // ----- The theorem -----

  /** Soundness. For every accepted schema generation succeeds, and the output resolves exactly under the
      rules the checker leaves to its caller: the classes resolve if and only if the feature's pages keep
      the page rules, their locators are closed if and only if the placeholders in the skipped slots are
      declared, the spec resolves if and only if the spec rules hold, and so for the auth setup. */
  lemma CodegenSound(h: Host, s: Schema, feature: string)
    requires HostOk(h) && Parsed(s) && WellTyped(h, s, feature)
    ensures Generate(h, s, feature).Ok?
    ensures (forall cls :: cls in Generate(h, s, feature).value.classes ==>
               ClassResolves(h, ExpectedKeys(s), Generate(h, s, feature).value.expectedExport, cls)) <==>
            (forall p :: p in s.pages && p.ownedBy == feature ==> PageSound(h, s, p))
    ensures (forall cls :: cls in Generate(h, s, feature).value.classes ==> ClassCloses(cls)) <==>
            (forall p :: p in s.pages && p.ownedBy == feature ==> UncheckedSlotsDeclared(p))
    ensures SpecResolves(h, s, Generate(h, s, feature).value) <==> SpecSound(h, s, feature)
    ensures var auth := Generate(h, s, feature).value.auth;
            (auth.Some? <==> s.spec.generatesStorageState.Some?)
            && (auth.Some? ==>
                  (AuthResolves(h, s, Generate(h, s, feature).value, auth.value) <==> AuthSound(h, s, feature)))
  {
    OwnedClasses(h, s, feature);
    SetupBuilds(h, s, feature);
    var out := Generate(h, s, feature).value;
    ClassesSoundIff(h, s, feature);
    SpecSoundIff(h, s, feature, out);
    AuthSoundIff(h, s, feature, out);
  }

  lemma ClassesSoundIff(h: Host, s: Schema, feature: string)
    requires HostOk(h) && Parsed(s) && WellTyped(h, s, feature)
    ensures BuildOwned(h, s.pages, feature, Barrel(h, s, feature)).Ok?
    ensures var classes := BuildOwned(h, s.pages, feature, Barrel(h, s, feature)).value;
            && ((forall cls :: cls in classes ==> ClassResolves(h, ExpectedKeys(s), ExpectedExport(h, s, feature), cls)) <==>
                (forall p :: p in s.pages && p.ownedBy == feature ==> PageSound(h, s, p)))
            && ((forall cls :: cls in classes ==> ClassCloses(cls)) <==>
                (forall p :: p in s.pages && p.ownedBy == feature ==> UncheckedSlotsDeclared(p)))
  {
    var barrel := Barrel(h, s, feature);
    AcceptedPages(h, s, feature);
    OwnedBuild(h, s.pages, feature, barrel);
    var classes, owned := BuildOwned(h, s.pages, feature, barrel).value, Owned(s.pages, feature);
    assert s.expected != Some([]) by {
      assert !SchemaBreaks(h, s, feature, EmptyExpectedBlock);
    }
    forall i | 0 <= i < |classes|
      ensures ClassResolves(h, ExpectedKeys(s), ExpectedExport(h, s, feature), classes[i]) <==> PageSound(h, s, owned[i])
      ensures ClassCloses(classes[i]) <==> UncheckedSlotsDeclared(owned[i])
    {
      assert owned[i] in s.pages;
      assert PageBuilder(h, barrel)(owned[i]) == Ok(classes[i]);
      TypedPageResolvesIff(h, s, owned[i], feature);
      MembersCloseIff(h, owned[i], barrel);
    }
    PointwiseIff(classes, owned, cls => ClassResolves(h, ExpectedKeys(s), ExpectedExport(h, s, feature), cls),
                 p => PageSound(h, s, p));
    PointwiseIff(classes, owned, cls => ClassCloses(cls), p => UncheckedSlotsDeclared(p));
    assert forall p :: p in owned <==> p in s.pages && p.ownedBy == feature;
  }

  lemma PointwiseIff<A, B>(xs: seq<A>, ys: seq<B>, px: A -> bool, py: B -> bool)
    requires |xs| == |ys| && forall i :: 0 <= i < |xs| ==> px(xs[i]) == py(ys[i])
    ensures (forall x :: x in xs ==> px(x)) <==> (forall y :: y in ys ==> py(y))
  {
    if forall x :: x in xs ==> px(x) {
      forall y | y in ys ensures py(y) {
        var i :| 0 <= i < |ys| && ys[i] == y;
        assert xs[i] in xs;
      }
    }
    if forall y :: y in ys ==> py(y) {
      forall x | x in xs ensures px(x) {
        var i :| 0 <= i < |xs| && xs[i] == x;
        assert ys[i] in ys;
      }
    }
  }

  /** The spec of an accepted schema resolves if and only if no underscore of the feature name is lost from
      the import, each call is of exactly one page of the feature, which has the method with the arity, and
      each argument is one argument whose names are fixtures of its test. */
  lemma SpecSoundIff(h: Host, s: Schema, feature: string, out: Generated)
    requires HostOk(h) && Parsed(s) && WellTyped(h, s, feature)
    requires BuildOwned(h, s.pages, feature, Barrel(h, s, feature)) == Ok(out.classes)
    requires out.spec == BuildNewSpec(h, s, feature) && out.expectedExport == ExpectedExport(h, s, feature)
    ensures SpecResolves(h, s, out) <==> SpecSound(h, s, feature)
  {
    ImportResolvesIff(h, feature);
    var imported := HasExpectedData(s);
    CallsResolveIff(h, s, feature, TestScope(imported, BeforeEach(s)), BeforeEach(s), out);
    forall i | 0 <= i < |s.spec.cases|
      ensures CallsResolve(h, s, out, TestScope(imported, out.spec.tests[i]), out.spec.tests[i])
              <==> CallsSound(h, s, feature, TestScope(imported, s.spec.cases[i].body), s.spec.cases[i].body)
    {
      InCasesCalls(s.spec.cases, s.spec.cases[i]);
      CallsResolveIff(h, s, feature, TestScope(imported, s.spec.cases[i].body), s.spec.cases[i].body, out);
    }
    PointwiseIff(out.spec.tests, s.spec.cases, t => CallsResolve(h, s, out, TestScope(imported, t), t),
                 (tc: TestCase) => CallsSound(h, s, feature, TestScope(imported, tc.body), tc.body));
  }

  /** Distinct fixture names are enough for the calls: each is then of exactly one page, which is the first
      with its name. */
  lemma DistinctFixturesSuffice(h: Host, s: Schema, feature: string, b: BodyCall)
    requires WellTyped(h, s, feature) && DistinctFixtures(h, s.pages) && b in SpecCalls(s)
    ensures CallOwned(h, s, feature, b) && FirstIsOwned(h, s, feature, b.fixture)
  {
    AcceptedCall(h, s, feature, b);
    UnbrokenCall(h, s, b);
    UniquePage(h, s, b.fixture);
    OwnedFixturesDistinct(h, s.pages, feature);
    var page, owned := FindPage(h, s.pages, b.fixture).value, Owned(s.pages, feature);
    assert page in owned;
    var k :| 0 <= k < |owned| && owned[k] == page;
    assert OwnedAt(h, owned, b, k);
  }

  // ----- The imported name and the exported name -----

  /** Scanning from the left, some separator that is followed by a character is an underscore. */
  predicate UnderscoreIsCamelCased(s: string) {
    if |s| < 2 then false
    else if s[0] in {'-', '_'} && !IsLineTerminator(s[1]) then s[0] == '_' || UnderscoreIsCamelCased(s[2..])
    else UnderscoreIsCamelCased(s[1..])
  }

  function Underscores(k: nat): string {
    if k == 0 then "" else "_" + Underscores(k - 1)
  }

  /** A name that keeps its underscores and is put behind one more can not be the one that loses them. */
  lemma {:induction false} ExtraUnderscore(h: Host, s: string, k: nat)
    requires UpperOk(h)
    ensures Underscores(k + 1) + CamelOn(h, {'-'}, s) != CamelOn(h, {'-', '_'}, s)
    decreases |s|
  {
    var one, both := Underscores(k + 1) + CamelOn(h, {'-'}, s), CamelOn(h, {'-', '_'}, s);
    assert one[0] == '_' && one[1..] == Underscores(k) + CamelOn(h, {'-'}, s);
    if s == [] || one != both {
    } else if s[0] in {'-', '_'} && |s| > 1 && !IsLineTerminator(s[1]) {
      assert both[0] == h.upper(s[1])[0];
      assert s[1] == '_' && both[1..] == CamelOn(h, {'-', '_'}, s[2..]);
      if s[0] == '-' {
        MoveUnderscore(k, CamelOn(h, {'-'}, s[2..]));
        ExtraUnderscore(h, s[2..], k);
      } else {
        assert s[1..][1..] == s[2..];
        MoveUnderscore(k, ['_'] + CamelOn(h, {'-'}, s[2..]));
        MoveUnderscore(k + 1, CamelOn(h, {'-'}, s[2..]));
        ExtraUnderscore(h, s[2..], k + 1);
      }
    } else {
      assert both[0] == s[0] && both[1..] == CamelOn(h, {'-', '_'}, s[1..]);
      MoveUnderscore(k, CamelOn(h, {'-'}, s[1..]));
      ExtraUnderscore(h, s[1..], k);
    }
  }

  lemma {:induction false} MoveUnderscore(k: nat, rest: string)
    ensures Underscores(k) + (['_'] + rest) == Underscores(k + 1) + rest
  {
    if k == 0 {
      assert Underscores(1) == "_" && Underscores(0) + (['_'] + rest) == ['_'] + rest;
    } else {
      MoveUnderscore(k - 1, rest);
      assert Underscores(k) + (['_'] + rest) == "_" + (Underscores(k - 1) + (['_'] + rest));
      assert "_" + (Underscores(k) + rest) == Underscores(k + 1) + rest;
    }
  }

  lemma {:induction false} CamelAgreesIff(h: Host, s: string)
    requires UpperOk(h)
    ensures CamelOn(h, {'-'}, s) == CamelOn(h, {'-', '_'}, s) <==> !UnderscoreIsCamelCased(s)
    decreases |s|
  {
    var one, both := CamelOn(h, {'-'}, s), CamelOn(h, {'-', '_'}, s);
    if |s| < 2 {
    } else if s[0] == '_' && !IsLineTerminator(s[1]) {
      assert one[0] == '_' && both[0] == h.upper(s[1])[0];
      if s[1] == '_' {
        assert s[1..][1..] == s[2..];
        assert CamelOn(h, {'-'}, s[1..]) == ['_'] + CamelOn(h, {'-'}, s[1..][1..]);
        assert one[1..] == CamelOn(h, {'-'}, s[1..]);
        assert both[1..] == CamelOn(h, {'-', '_'}, s[2..]);
        assert Underscores(1) == "_";
        ExtraUnderscore(h, s[2..], 0);
      }
    } else if s[0] == '-' && !IsLineTerminator(s[1]) {
      CamelAgreesIff(h, s[2..]);
      var n := |h.upper(s[1])|;
      assert one[n..] == CamelOn(h, {'-'}, s[2..]) && both[n..] == CamelOn(h, {'-', '_'}, s[2..]);
    } else {
      CamelAgreesIff(h, s[1..]);
      assert one[1..] == CamelOn(h, {'-'}, s[1..]) && both[1..] == CamelOn(h, {'-', '_'}, s[1..]);
    }
  }

  /** The spec imports the test data under the name the page loader exports if and only if no underscore of
      the feature name is camel-cased away. */
  lemma ImportResolvesIff(h: Host, feature: string)
    requires UpperOk(h)
    ensures SpecImportName(h, feature) == BarrelExport(h, feature) <==> !UnderscoreIsCamelCased(feature)
  {
    CamelAgreesIff(h, feature);
    var one, both := CamelOn(h, {'-'}, feature), CamelOn(h, {'-', '_'}, feature);
    if SpecImportName(h, feature) == BarrelExport(h, feature) {
      assert SpecImportName(h, feature)[..|one|] == one && BarrelExport(h, feature)[..|both|] == both;
      assert |one| == |both|;
    }
  }
}
