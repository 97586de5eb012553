/** What it means for the generated output to resolve, and the rules for it that the checker does not have. */
module CodegenResolution {
  import opened Option
  import opened CodegenSchema
  import opened CodegenLocator
  import opened CodegenChecker
  import opened CodegenEmit
  import opened Sequences

  // ----- How an argument list is read -----

  /** The comma-separated slots of the printed list; an empty argument leaves an empty slot. */
  function Slots(h: Host, args: seq<string>): seq<string> {
    if args == [] then []
    else (if args[0] == "" then [""] else h.operands(args[0])) + Slots(h, args[1..])
  }

  /** The arguments the compiler reads in f(a, b): one comma may trail. */
  function ReadArguments(h: Host, args: seq<string>): seq<string> {
    var slots := Slots(h, args);
    if slots != [] && Last(slots) == "" then Front(slots) else slots
  }

  /** The list is well formed and each argument reaches its own parameter. */
  ghost predicate ReadsBack(h: Host, args: seq<string>) {
    "" !in ReadArguments(h, args) && ReadArguments(h, args) == args
  }

  /** Neither empty nor split by a comma nor running out of the list. */
  predicate IsArgument(h: Host, e: string) {
    e != "" && h.operands(e) == [e]
  }

  // ----- When a generated class resolves -----

  /** The members of the base classes (content/templates/ui/pages/BasePage.ts and panels/BasePanel.ts). */
  function Inherited(b: Base): set<string> {
    match b
    case BasePage =>
      {"constructor", "page", "waitForPageLoad", "waitForElement", "clickIfVisible", "dragTo", "getTitle", "attachScreenshot"}
    case BasePanel => {"constructor", "page", "waitForElement", "clickIfVisible", "dragTo"}
  }

  function ParamNames(params: seq<Param>): set<string> {
    set p | p in params :: p.name
  }

  ghost predicate Declares(cls: ClassDecl, a: Access) {
    match a
    case FieldAccess(name) => exists m :: m in cls.members && m.FieldMember? && m.name == name
    case CallAccess(name, args) =>
      exists m :: m in cls.members && m.LocatorMethod? && m.name == name && |m.params| == |args|
  }

  /** Where an expression stands: the names declared or imported as values around it, whether the test data is
      imported as `expected`, and the names of the enclosing function, which hide the others. */
  datatype Scope = Scope(file: set<string>, imported: bool, locals: set<string>)

  /** Every key the expression reads off `expected` is one of the record. */
  ghost predicate KeysKnown(h: Host, keys: Option<seq<string>>, e: string) {
    keys.Some? && forall k :: k in h.readKeys(e) ==> k in keys.value
  }

  /** The names are in scope, and `expected` is the test data: where it is, the keys exist, and where something
      else has the name, the text does not read as if it were. */
  ghost predicate NamesResolve(h: Host, keys: Option<seq<string>>, scope: Scope, e: string) {
    && (forall n :: n in h.freeNames(e) ==> n in scope.locals || n in scope.file || (n == "expected" && scope.imported))
    && ("expected" in h.freeNames(e) ==>
          if scope.imported && "expected" !in scope.locals then KeysKnown(h, keys, e) else h.expectedKeys(e) == [])
  }

  ghost predicate ExprResolves(h: Host, keys: Option<seq<string>>, scope: Scope, e: string) {
    (e != "" ==> h.validExpr(e) && h.enclosed(e)) && NamesResolve(h, keys, scope, e)
  }

  function BaseName(b: Base): string {
    match b
    case BasePage => "BasePage"
    case BasePanel => "BasePanel"
  }

  /** The values a page-object file declares or imports, next to the test data. */
  function FileNames(name: string, base: Base, expects: bool): set<string> {
    {name, BaseName(base)} + if expects then {"expect"} else {}
  }

  function ClassScope(cls: ClassDecl, params: seq<Param>): Scope {
    Scope(FileNames(cls.name, cls.base, "expect" in cls.playwright), cls.expectedImport.Some?, ParamNames(params))
  }

  ghost predicate AccessResolves(h: Host, keys: Option<seq<string>>, cls: ClassDecl, params: seq<Param>, a: Access) {
    && Declares(cls, a)
    && (a.CallAccess? ==>
          && ReadsBack(h, a.args)
          && forall e :: e in a.args ==> ExprResolves(h, keys, ClassScope(cls, params), e))
  }

  ghost predicate ValueResolves(params: seq<Param>, v: Value) {
    match v
    case ParamRef(name) => HasParam(params, name)
    case Literal(_) => true
    case Missing => false
  }

  /** The inherited member a statement goes through. */
  function BaseMember(st: Stmt): Option<string> {
    match st
    case GotoOwnPath => Some("page")
    case PageCall(_) => Some("page")
    case WaitForLoad => Some("waitForPageLoad")
    case Invoke(_, operation, _) => if operation == "clickIfVisible" then Some("clickIfVisible") else None
    case DragTo(_, _, _) => Some("dragTo")
    case WaitFor(_, _) => None
    case ExpectPage(_, _) => Some("page")
    case ExpectElement(_, _, _) => None
  }

  ghost predicate TargetsResolve(h: Host, keys: Option<seq<string>>, cls: ClassDecl, params: seq<Param>, st: Stmt) {
    match st
    case GotoOwnPath => cls.path.Some?
    case PageCall(_) => true
    case WaitForLoad => true
    case Invoke(target, _, value) =>
      AccessResolves(h, keys, cls, params, target) && (value.Some? ==> ValueResolves(params, value.value))
    case DragTo(source, target, _) =>
      AccessResolves(h, keys, cls, params, source) && AccessResolves(h, keys, cls, params, target)
    case WaitFor(target, _) => AccessResolves(h, keys, cls, params, target)
    case ExpectPage(_, arg) => ExprResolves(h, keys, ClassScope(cls, params), arg)
    case ExpectElement(target, _, arg) =>
      && AccessResolves(h, keys, cls, params, target)
      && ExprResolves(h, keys, ClassScope(cls, params), arg)
  }

  /** The statement calls the imported `expect`. */
  predicate CallsExpect(st: Stmt) {
    st.ExpectPage? || st.ExpectElement?
  }

  ghost predicate StmtResolves(h: Host, keys: Option<seq<string>>, cls: ClassDecl, params: seq<Param>, st: Stmt) {
    && TargetsResolve(h, keys, cls, params, st)
    && (CallsExpect(st) ==> "expect" in cls.playwright && "expect" !in ParamNames(params))
    && (BaseMember(st).Some? ==> BaseMember(st).value in Inherited(cls.base))
  }

  ghost predicate MethodResolves(h: Host, keys: Option<seq<string>>, cls: ClassDecl, m: MethodDecl) {
    forall st :: st in m.body ==> StmtResolves(h, keys, cls, m.params, st)
  }

  /** The names the file imports, and the global type that its methods return. */
  function TakenNames(cls: ClassDecl): set<string> {
    {BaseName(cls.base)}
    + (set n | n in cls.playwright)
    + (if cls.expectedImport.Some? then {"expected"} else {})
    + (if cls.methods != [] then {"Promise"} else {})
  }

  /** The names of the file: the class has one of its own, and its members, methods and path field differ. */
  ghost predicate NamesDistinct(cls: ClassDecl) {
    && cls.name !in TakenNames(cls)
    && (forall i, j :: 0 <= i < j < |cls.members| ==> cls.members[i].name != cls.members[j].name)
    && (forall i, j :: 0 <= i < j < |cls.methods| ==> cls.methods[i].name != cls.methods[j].name)
    && (forall m, d :: m in cls.members && d in cls.methods ==> m.name != d.name)
    && (cls.path.Some? ==> forall m :: m in cls.members ==> m.name != "path")
    && (cls.path.Some? ==> forall d :: d in cls.methods ==> d.name != "path")
  }

  /** No member or method takes the name of an inherited member. */
  ghost predicate NothingHides(cls: ClassDecl) {
    && (forall m :: m in cls.members ==> m.name !in Inherited(cls.base))
    && (forall d :: d in cls.methods ==> d.name !in Inherited(cls.base))
  }

  ghost predicate ClassResolves(h: Host, keys: Option<seq<string>>, exported: Option<string>, cls: ClassDecl) {
    && NamesDistinct(cls)
    && NothingHides(cls)
    && (cls.expectedImport.Some? ==> cls.expectedImport == exported)
    && forall m :: m in cls.methods ==> MethodResolves(h, keys, cls, m)
  }

  /** A member's locator refers only to the member's own parameters. */
  ghost predicate MemberCloses(m: Member) {
    match m
    case FieldMember(_, init) => forall name :: !RefersTo(init, name)
    case LocatorMethod(_, params, body) => forall name :: RefersTo(body, name) ==> HasParam(params, name)
  }

  ghost predicate ClassCloses(cls: ClassDecl) {
    forall m :: m in cls.members ==> MemberCloses(m)
  }

  // ----- Hypotheses -----

  /** Facts of the host language: camel-casing strips every character outside [a-zA-Z0-9]; the empty
      expression mentions nothing; an expression amounts to at least one argument and to no empty one, and to itself
      only if it stays inside its parentheses; and upper-casing erases nothing and makes an underscore of underscores only. */
  ghost predicate HostOk(h: Host) {
    && (forall s :: '_' !in h.camelCase(s))
    && h.expectedKeys("") == [] && h.freeNames("") == []
    && (forall e :: e != "" ==> h.operands(e) != [] && "" !in h.operands(e))
    && (forall e :: h.operands(e) == [e] ==> h.enclosed(e))
    && UpperOk(h)
  }

  ghost predicate UpperOk(h: Host) {
    h.upper('_') == "_" && forall c :: h.upper(c) != [] && (h.upper(c)[0] == '_' ==> c == '_')
  }

  ghost predicate PageTyped(h: Host, page: Page) {
    forall c :: !PageBreaks(h, page, c)
  }

  ghost predicate PageExprsTyped(h: Host, s: Schema, page: Page) {
    forall c :: !PageExprBreaks(h, s, page, c)
  }

  ghost predicate MethodsPrefixed(page: Page) {
    && (forall st :: st in page.steps ==> "step_" <= st.name)
    && (forall v :: v in page.verifies ==> "verify_" <= v.name)
  }

  /** The placeholders the checker never looks at are declared too. */
  ghost predicate UncheckedSlotsDeclared(page: Page) {
    forall el, name :: el in page.elements && IsDynamic(el) && UncheckedHole(el, name) ==> HasParam(el.dynParams, name)
  }

  // ----- The rules the checker does not have -----

  function BaseOf(page: Page): Base {
    if page.isPanel then BasePanel else BasePage
  }

  /** The class of the page imports the test data. */
  predicate ImportsExpected(h: Host, s: Schema, page: Page) {
    s.expected.Some? && UsesExpected(h, page)
  }

  /** The class takes no name that its file needs for something else. */
  predicate ClassNameIsFree(page: Page, importsExpected: bool) {
    && page.pageClass != BaseName(BaseOf(page))
    && (page.verifies != [] ==> page.pageClass != "expect")
    && (HasDynamic(page) ==> page.pageClass != "Locator")
    && (importsExpected ==> page.pageClass != "expected")
    && (page.steps != [] || page.verifies != [] ==> page.pageClass != "Promise")
  }

  function PageScope(h: Host, s: Schema, page: Page, params: seq<Param>): Scope {
    Scope(FileNames(page.pageClass, BaseOf(page), page.verifies != []), ImportsExpected(h, s, page), ParamNames(params))
  }

  /** No element of a page takes the name of the emitted path field. */
  ghost predicate PathIsFree(h: Host, page: Page) {
    page.isPanel || forall el :: el in page.elements ==> DeriveFieldName(h, el) != "path"
  }

  /** No element takes the name of an inherited member. */
  ghost predicate NothingHidden(h: Host, page: Page) {
    forall el :: el in page.elements ==> DeriveFieldName(h, el) !in Inherited(BaseOf(page))
  }

  /** A reference argument is one argument, and its names resolve in the method of the page. */
  ghost predicate RefArgSound(h: Host, s: Schema, page: Page, params: seq<Param>, e: string) {
    IsArgument(h, e) && NamesResolve(h, ExpectedKeys(s), PageScope(h, s, page, params), e)
  }

  ghost predicate UseSound(h: Host, s: Schema, page: Page, params: seq<Param>, u: Use) {
    forall e :: e in u.args ==> RefArgSound(h, s, page, params, e)
  }

  /** The action's arguments are sound, and a panel does not wait for a page load. */
  ghost predicate ActionSound(h: Host, s: Schema, page: Page, params: seq<Param>, a: Action) {
    && (forall u :: u in ActionUses(a) ==> UseSound(h, s, page, params, u))
    && (a.WaitForPageLoad? ==> !page.isPanel)
  }

  /** The assertion's arguments are sound, the asserted one stays inside the call, and no parameter hides
      `expect`. */
  ghost predicate AssertionSound(h: Host, s: Schema, page: Page, params: seq<Param>, a: Assertion) {
    && (forall u :: u in AssertionUses(a) ==> UseSound(h, s, page, params, u))
    && NamesResolve(h, ExpectedKeys(s), PageScope(h, s, page, params), ArgText(a.arg))
    && (ArgText(a.arg) != "" ==> h.enclosed(ArgText(a.arg)))
    && "expect" !in ParamNames(params)
  }

  ghost predicate StepSound(h: Host, s: Schema, page: Page, st: StepDef) {
    forall a :: a in st.actions ==> ActionSound(h, s, page, st.params, a)
  }

  ghost predicate VerifySound(h: Host, s: Schema, page: Page, v: VerifyDef) {
    forall a :: a in v.assertions ==> AssertionSound(h, s, page, v.params, a)
  }

  ghost predicate PageSound(h: Host, s: Schema, page: Page) {
    && ClassNameIsFree(page, ImportsExpected(h, s, page))
    && PathIsFree(h, page)
    && NothingHidden(h, page)
    && (forall st :: st in page.steps ==> StepSound(h, s, page, st))
    && (forall v :: v in page.verifies ==> VerifySound(h, s, page, v))
  }

  // ----- Reading an argument list -----

  lemma {:induction false} SlotsOfArguments(h: Host, args: seq<string>)
    requires forall e :: e in args ==> IsArgument(h, e)
    ensures Slots(h, args) == args
  {
    if args != [] {
      assert args[0] in args && forall e :: e in args[1..] ==> e in args;
      SlotsOfArguments(h, args[1..]);
    }
  }

  lemma {:induction false} SlotsGrow(h: Host, args: seq<string>)
    requires HostOk(h)
    ensures |Slots(h, args)| >= |args|
  {
    if args != [] {
      SlotsGrow(h, args[1..]);
    }
  }

  lemma {:induction false} SlotsBack(h: Host, args: seq<string>)
    requires HostOk(h) && "" !in args && Slots(h, args) == args
    ensures forall e :: e in args ==> IsArgument(h, e)
  {
    if args != [] {
      var rest := Slots(h, args[1..]);
      SlotsGrow(h, args[1..]);
      assert args[0] in args && forall e :: e in args[1..] ==> e in args;
      assert |h.operands(args[0])| + |rest| == |args|;
      assert rest == args[1..];
      SlotsBack(h, args[1..]);
      assert h.operands(args[0]) == [args[0]];
      assert args == [args[0]] + args[1..];
    }
  }

  lemma {:induction false} SlotsNotEmpty(h: Host, args: seq<string>)
    requires HostOk(h) && "" !in args
    ensures "" !in Slots(h, args)
  {
    if args != [] {
      assert args[0] in args && forall e :: e in args[1..] ==> e in args;
      SlotsNotEmpty(h, args[1..]);
    }
  }

  /** An argument list reads back if and only if every argument is one. */
  lemma ReadsBackIff(h: Host, args: seq<string>)
    requires HostOk(h)
    ensures ReadsBack(h, args) <==> forall e :: e in args ==> IsArgument(h, e)
  {
    if forall e :: e in args ==> IsArgument(h, e) {
      SlotsOfArguments(h, args);
      assert args != [] ==> Last(args) in args;
    }
    if ReadsBack(h, args) {
      SlotsNotEmpty(h, args);
      var slots := Slots(h, args);
      assert slots != [] ==> Last(slots) in slots;
      SlotsBack(h, args);
    }
  }
}
