/** Type soundness of the code generator: what the checker accepts, the back end translates without
    throwing, and a generated class resolves if and only if its page keeps the rules the checker does
    not have. */
module CodegenSoundness {
  import opened Option
  import opened CodegenSchema
  import opened CodegenLocator
  import opened CodegenChecker
  import opened CodegenEmit
  import opened CodegenResolution

  // ----- Members -----

  lemma TypedPageNames(h: Host, page: Page)
    requires !Repeats(Refs(page.elements)) && !Repeats(FieldNames(h, page.elements))
    ensures DistinctRefs(page.elements) && DistinctFieldNames(h, page.elements)
  {
    var refs, names := Refs(page.elements), FieldNames(h, page.elements);
    forall i, j | 0 <= i < j < |page.elements|
      ensures page.elements[i].ref != page.elements[j].ref
      ensures DeriveFieldName(h, page.elements[i]) != DeriveFieldName(h, page.elements[j])
    {
      assert refs[i] != refs[j] && names[i] != names[j];
    }
  }

  lemma TypedElement(h: Host, page: Page, el: Element)
    requires PageTyped(h, page) && el in page.elements
    ensures DeriveLocator(el).Ok? && PlaceholdersMatch(el)
  {
    assert !PageBreaks(h, page, LocatorMissing) && !PageBreaks(h, page, DynamicPlaceholderMismatch);
    assert !ElementBreaks(el, LocatorMissing) && !ElementBreaks(el, DynamicPlaceholderMismatch);
  }

  lemma TypedPageFacts(h: Host, page: Page)
    requires PageTyped(h, page)
    ensures DistinctRefs(page.elements) && DistinctFieldNames(h, page.elements)
    ensures forall el :: el in page.elements ==> DeriveLocator(el).Ok? && PlaceholdersMatch(el)
  {
    assert !PageBreaks(h, page, DuplicateElementRef) && !PageBreaks(h, page, FieldNameCollision);
    TypedPageNames(h, page);
    forall el | el in page.elements ensures DeriveLocator(el).Ok? && PlaceholdersMatch(el) {
      TypedElement(h, page, el);
    }
  }

  /** An accepted page never makes the back end throw, and each member carries its element's own name. */
  lemma TypedPageBuilds(h: Host, page: Page, barrel: Option<string>)
    requires PageTyped(h, page)
    ensures BuildPageObject(h, page, barrel).Ok?
    ensures var cls := BuildPageObject(h, page, barrel).value;
            && |cls.members| == |page.elements|
            && forall i :: 0 <= i < |page.elements| ==>
                 && EmitMember(h, page, page.elements[i]) == Ok(cls.members[i])
                 && cls.members[i].name == DeriveFieldName(h, page.elements[i])
  {
    TypedPageFacts(h, page);
    DeduplicationIsIdleIff(h, page.elements);
    var members := EmitMembers(h, page, page.elements).value;
    forall i | 0 <= i < |page.elements| ensures members[i].name == DeriveFieldName(h, page.elements[i]) {
      assert EmitMember(h, page, page.elements[i]) == Ok(members[i]);
      assert page.elements[i].ref in FieldMap(h, page.elements);
    }
  }

  /** The members close exactly when the unchecked placeholders are declared. */
  lemma MembersCloseIff(h: Host, page: Page, barrel: Option<string>)
    requires PageTyped(h, page)
    ensures BuildPageObject(h, page, barrel).Ok?
    ensures ClassCloses(BuildPageObject(h, page, barrel).value) <==> UncheckedSlotsDeclared(page)
  {
    TypedPageFacts(h, page);
    TypedPageBuilds(h, page, barrel);
    var cls := BuildPageObject(h, page, barrel).value;
    forall i | 0 <= i < |page.elements|
      ensures MemberCloses(cls.members[i]) <==>
              forall name :: IsDynamic(page.elements[i]) && UncheckedHole(page.elements[i], name) ==>
                HasParam(page.elements[i].dynParams, name)
    {
      MemberClosesIff(h, page, page.elements[i]);
    }
    if ClassCloses(cls) {
      forall el, name | el in page.elements && IsDynamic(el) && UncheckedHole(el, name)
        ensures HasParam(el.dynParams, name)
      {
        var i :| 0 <= i < |page.elements| && page.elements[i] == el;
        assert cls.members[i] in cls.members;
      }
    }
  }

  lemma MemberClosesIff(h: Host, page: Page, el: Element)
    requires DeriveLocator(el).Ok? && PlaceholdersMatch(el)
    ensures MemberCloses(EmitMember(h, page, el).value) <==>
            forall name :: IsDynamic(el) && UncheckedHole(el, name) ==> HasParam(el.dynParams, name)
  {
    var loc := DeriveLocator(el).value;
    if IsDynamic(el) {
      forall name
        ensures RefersTo(loc, name) <==> name in SlotHoles(CheckedSlot(el)) || UncheckedHole(el, name)
      {
        DynamicLocatorNames(el, name);
      }
    } else {
      forall name ensures !RefersTo(loc, name) {
        StaticLocatorIsClosed(el, name);
      }
    }
  }

  // ----- Names of members and methods -----

  lemma FieldNameHasNoUnderscore(h: Host, el: Element)
    requires HostOk(h)
    ensures '_' !in DeriveFieldName(h, el)
  {
    assert '_' !in TagSuffix(el.tag);
    assert '_' !in h.camelCase(el.tag);
  }

  lemma StepNameFacts(name: string)
    requires "step_" <= name
    ensures name[0] == 's' && '_' in name
  {
    assert name[4] == '_';
  }

  lemma VerifyNameFacts(name: string)
    requires "verify_" <= name
    ensures name[0] == 'v' && '_' in name
  {
    assert name[6] == '_';
  }

  lemma TwoListsDistinct(names: seq<string>, steps: seq<string>, verifies: seq<string>)
    requires names == steps + verifies && !Repeats(steps) && !Repeats(verifies)
    requires forall n :: n in steps ==> "step_" <= n
    requires forall n :: n in verifies ==> "verify_" <= n
    ensures forall i, j :: 0 <= i < j < |names| ==> names[i] != names[j]
    ensures forall n :: n in names ==> '_' in n
  {
    forall i, j | 0 <= i < j < |names|
      ensures names[i] != names[j]
    {
      if i < |steps| <= j {
        assert names[i] == steps[i] && steps[i] in steps;
        assert names[j] == verifies[j - |steps|] && verifies[j - |steps|] in verifies;
        StepNameFacts(names[i]);
        VerifyNameFacts(names[j]);
      }
    }
    forall n | n in names
      ensures '_' in n
    {
      if n in steps {
        StepNameFacts(n);
      } else {
        VerifyNameFacts(n);
      }
    }
  }

  lemma MethodNameAt(h: Host, page: Page, i: nat)
    requires i < |Methods(h, page)|
    ensures |Methods(h, page)| == |StepNames(page) + VerifyNames(page)|
    ensures Methods(h, page)[i].name == (StepNames(page) + VerifyNames(page))[i]
  {
  }

  lemma MethodsDistinct(h: Host, page: Page)
    requires !Repeats(StepNames(page)) && !Repeats(VerifyNames(page))
    requires forall st :: st in page.steps ==> "step_" <= st.name
    requires forall v :: v in page.verifies ==> "verify_" <= v.name
    ensures forall i, j :: 0 <= i < j < |Methods(h, page)| ==> Methods(h, page)[i].name != Methods(h, page)[j].name
    ensures forall d :: d in Methods(h, page) ==> '_' in d.name
  {
    var methods := Methods(h, page);
    var names := StepNames(page) + VerifyNames(page);
    forall i | 0 <= i < |methods|
      ensures |methods| == |names| && methods[i].name == names[i]
    {
      MethodNameAt(h, page, i);
    }
    TwoListsDistinct(names, StepNames(page), VerifyNames(page));
    forall d | d in methods
      ensures '_' in d.name
    {
      var i :| 0 <= i < |methods| && methods[i] == d;
      assert names[i] in names;
    }
  }

  lemma InheritedFacts(b: Base)
    ensures forall n :: n in Inherited(b) ==> '_' !in n
    ensures "page" in Inherited(b) && "clickIfVisible" in Inherited(b) && "dragTo" in Inherited(b)
    ensures "waitForPageLoad" in Inherited(b) <==> b.BasePage?
  {
    assert |"waitForPageLoad"| == 15 && |"constructor"| == 11 && |"page"| == 4 && |"waitForElement"| == 14
           && |"clickIfVisible"| == 14 && |"dragTo"| == 6;
  }

  lemma MethodNameFacts(h: Host, page: Page)
    requires PageTyped(h, page) && MethodsPrefixed(page)
    ensures forall i, j :: 0 <= i < j < |Methods(h, page)| ==> Methods(h, page)[i].name != Methods(h, page)[j].name
    ensures forall d :: d in Methods(h, page) ==> '_' in d.name
  {
    assert !PageBreaks(h, page, DuplicateStepName) && !PageBreaks(h, page, DuplicateVerifyName);
    MethodsDistinct(h, page);
  }

  lemma MemberNameFacts(h: Host, page: Page, barrel: Option<string>)
    requires HostOk(h) && PageTyped(h, page)
    ensures BuildPageObject(h, page, barrel).Ok?
    ensures var members := BuildPageObject(h, page, barrel).value.members;
            && (forall i, j :: 0 <= i < j < |members| ==> members[i].name != members[j].name)
            && forall m :: m in members ==> '_' !in m.name
  {
    TypedPageFacts(h, page);
    TypedPageBuilds(h, page, barrel);
    var members := BuildPageObject(h, page, barrel).value.members;
    forall m | m in members ensures '_' !in m.name {
      var i :| 0 <= i < |members| && members[i] == m;
      FieldNameHasNoUnderscore(h, page.elements[i]);
    }
  }

  lemma BuiltParts(h: Host, page: Page, barrel: Option<string>)
    requires BuildPageObject(h, page, barrel).Ok?
    ensures var cls := BuildPageObject(h, page, barrel).value;
            && cls.name == page.pageClass && cls.methods == Methods(h, page) && cls.base == BaseOf(page)
            && (cls.path.Some? <==> !page.isPanel)
            && cls.playwright == PlaywrightImports(page)
            && cls.expectedImport == if UsesExpected(h, page) then barrel else None
  {
  }

  lemma ImportedFromPlaywright(page: Page)
    ensures "expect" in PlaywrightImports(page) <==> page.verifies != []
    ensures "Locator" in PlaywrightImports(page) <==> HasDynamic(page)
    ensures forall n :: n in PlaywrightImports(page) ==> n == "expect" || n == "Locator"
  {
    assert "expect"[0] == 'e' && "Locator"[0] == 'L';
  }

  /** The class has a name of its own if and only if the page's name is free. */
  lemma ClassNameIsFreeIff(h: Host, page: Page, cls: ClassDecl, importsExpected: bool)
    requires cls.name == page.pageClass && cls.base == BaseOf(page) && cls.methods == Methods(h, page)
    requires cls.playwright == PlaywrightImports(page) && (cls.expectedImport.Some? <==> importsExpected)
    ensures cls.name !in TakenNames(cls) <==> ClassNameIsFree(page, importsExpected)
  {
    ImportedFromPlaywright(page);
  }

  /** What the underscore of the method names settles: only members can take the name of the path field. */
  lemma OnlyMembersClash(cls: ClassDecl)
    requires forall i, j :: 0 <= i < j < |cls.members| ==> cls.members[i].name != cls.members[j].name
    requires forall i, j :: 0 <= i < j < |cls.methods| ==> cls.methods[i].name != cls.methods[j].name
    requires forall m :: m in cls.members ==> '_' !in m.name
    requires forall d :: d in cls.methods ==> '_' in d.name
    ensures NamesDistinct(cls) <==>
            && cls.name !in TakenNames(cls)
            && (cls.path.Some? ==> forall m :: m in cls.members ==> m.name !in {"path"})
  {
    assert '_' !in "path";
  }

  /** The names of a class are distinct if and only if no element takes the name of the path field and the class
      none of a name its file imports or returns. */
  lemma ClassNamesDistinctIff(h: Host, page: Page, barrel: Option<string>)
    requires HostOk(h) && PageTyped(h, page) && MethodsPrefixed(page)
    ensures BuildPageObject(h, page, barrel).Ok?
    ensures NamesDistinct(BuildPageObject(h, page, barrel).value)
            <==> PathIsFree(h, page) && ClassNameIsFree(page, barrel.Some? && UsesExpected(h, page))
  {
    MemberNameFacts(h, page, barrel);
    MethodNameFacts(h, page);
    BuiltParts(h, page, barrel);
    ClassNameIsFreeIff(h, page, BuildPageObject(h, page, barrel).value, barrel.Some? && UsesExpected(h, page));
    OnlyMembersClash(BuildPageObject(h, page, barrel).value);
    MembersAvoidIff(h, page, barrel, {"path"});
  }

  lemma SameNames(members: seq<Member>, els: seq<Element>, name: Element -> string, names: set<string>)
    requires |members| == |els|
    requires forall i :: 0 <= i < |els| ==> members[i].name == name(els[i])
    ensures (forall m :: m in members ==> m.name !in names) <==> (forall el :: el in els ==> name(el) !in names)
  {
    if forall m :: m in members ==> m.name !in names {
      forall el | el in els ensures name(el) !in names {
        var i :| 0 <= i < |els| && els[i] == el;
        assert members[i] in members;
      }
    }
    if forall el :: el in els ==> name(el) !in names {
      forall m | m in members ensures m.name !in names {
        var i :| 0 <= i < |members| && members[i] == m;
        assert els[i] in els;
      }
    }
  }

  /** The members of a class avoid a set of names if and only if the derived names do. */
  lemma MembersAvoidIff(h: Host, page: Page, barrel: Option<string>, names: set<string>)
    requires PageTyped(h, page)
    ensures BuildPageObject(h, page, barrel).Ok?
    ensures (forall m :: m in BuildPageObject(h, page, barrel).value.members ==> m.name !in names)
            <==> (forall el :: el in page.elements ==> DeriveFieldName(h, el) !in names)
  {
    TypedPageBuilds(h, page, barrel);
    var name := (el: Element) => DeriveFieldName(h, el);
    SameNames(BuildPageObject(h, page, barrel).value.members, page.elements, name, names);
    assert forall el :: name(el) == DeriveFieldName(h, el);
  }

  lemma OnlyMembersHide(cls: ClassDecl)
    requires forall d :: d in cls.methods ==> '_' in d.name
    ensures NothingHides(cls) <==> forall m :: m in cls.members ==> m.name !in Inherited(cls.base)
  {
    InheritedFacts(cls.base);
  }

  /** Nothing inherited is hidden if and only if no element derives the name of an inherited member. */
  lemma NothingHidesIff(h: Host, page: Page, barrel: Option<string>)
    requires HostOk(h) && PageTyped(h, page) && MethodsPrefixed(page)
    ensures BuildPageObject(h, page, barrel).Ok?
    ensures NothingHides(BuildPageObject(h, page, barrel).value) <==> NothingHidden(h, page)
  {
    TypedPageBuilds(h, page, barrel);
    MethodNameFacts(h, page);
    BuiltParts(h, page, barrel);
    OnlyMembersHide(BuildPageObject(h, page, barrel).value);
    MembersAvoidIff(h, page, barrel, Inherited(BaseOf(page)));
  }

  // ----- Accesses -----

  lemma MemberOf(h: Host, page: Page, barrel: Option<string>, el: Element) returns (m: Member)
    requires PageTyped(h, page) && el in page.elements
    ensures BuildPageObject(h, page, barrel).Ok? && m in BuildPageObject(h, page, barrel).value.members
    ensures EmitMember(h, page, el) == Ok(m)
  {
    TypedPageBuilds(h, page, barrel);
    var i :| 0 <= i < |page.elements| && page.elements[i] == el;
    m := BuildPageObject(h, page, barrel).value.members[i];
  }

  lemma UnbrokenUse(h: Host, page: Page, u: Use) returns (el: Element)
    requires forall c :: !UseBreaks(h, page, u, c)
    ensures ElementByRef(page.elements, u.ref) == Some(el)
    ensures |u.args| == |el.dynParams| && (IsDynamic(el) ==> AllValid(h, u.args))
  {
    assert !UseBreaks(h, page, u, GhostElementRef) && !UseBreaks(h, page, u, DynamicRefArgs)
           && !UseBreaks(h, page, u, InvalidExpression);
    el := ElementByRef(page.elements, u.ref).value;
  }

  /** The file of the class has the names that the page says. */
  ghost predicate FileOf(h: Host, s: Schema, page: Page, cls: ClassDecl) {
    && cls.name == page.pageClass && cls.base == BaseOf(page)
    && ("expect" in cls.playwright <==> page.verifies != [])
    && (cls.expectedImport.Some? <==> ImportsExpected(h, s, page))
  }

  lemma ScopesAgree(h: Host, s: Schema, page: Page, cls: ClassDecl, params: seq<Param>)
    requires FileOf(h, s, page, cls)
    ensures ClassScope(cls, params) == PageScope(h, s, page, params)
  {
  }

  lemma ArgsResolveIff(h: Host, s: Schema, page: Page, cls: ClassDecl, params: seq<Param>, u: Use)
    requires HostOk(h) && FileOf(h, s, page, cls) && AllValid(h, u.args)
    ensures UseSound(h, s, page, params, u) <==>
            && ReadsBack(h, u.args)
            && forall e :: e in u.args ==> ExprResolves(h, ExpectedKeys(s), ClassScope(cls, params), e)
  {
    ReadsBackIff(h, u.args);
    ScopesAgree(h, s, page, cls, params);
  }

  lemma Located(h: Host, page: Page, cls: ClassDecl, u: Use, el: Element, m: Member)
    requires ElementByRef(page.elements, u.ref) == Some(el) && m in cls.members
    requires EmitMember(h, page, el) == Ok(m) && |u.args| == |el.dynParams|
    ensures Declares(cls, Locate(h, page, u.ref, u.args))
    ensures IsDynamic(el) ==> Locate(h, page, u.ref, u.args) == CallAccess(FieldOf(h, page, u.ref), u.args)
    ensures !IsDynamic(el) ==> Locate(h, page, u.ref, u.args).FieldAccess? && u.args == []
  {
  }

  /** An accepted use of an element names a declared member with its parameter count, and resolves if and
      only if its arguments are sound. */
  lemma LocateResolvesIff(h: Host, s: Schema, page: Page, barrel: Option<string>, params: seq<Param>, u: Use)
    requires HostOk(h) && PageTyped(h, page) && (forall c :: !UseBreaks(h, page, u, c))
    requires BuildPageObject(h, page, barrel).Ok? && FileOf(h, s, page, BuildPageObject(h, page, barrel).value)
    ensures Declares(BuildPageObject(h, page, barrel).value, Locate(h, page, u.ref, u.args))
    ensures AccessResolves(h, ExpectedKeys(s), BuildPageObject(h, page, barrel).value, params, Locate(h, page, u.ref, u.args))
            <==> UseSound(h, s, page, params, u)
  {
    var el := UnbrokenUse(h, page, u);
    var m := MemberOf(h, page, barrel, el);
    var cls := BuildPageObject(h, page, barrel).value;
    Located(h, page, cls, u, el, m);
    if IsDynamic(el) {
      ArgsResolveIff(h, s, page, cls, params, u);
    }
  }

  // ----- Steps -----

  lemma NoActionBreaks(h: Host, page: Page, step: StepDef, a: Action)
    requires PageTyped(h, page) && step in page.steps && a in step.actions
    ensures forall c :: !ActionBreaks(h, page, step, a, c)
    ensures forall c, u :: u in ActionUses(a) ==> !UseBreaks(h, page, u, c)
  {
    forall c ensures !ActionBreaks(h, page, step, a, c) {
      assert !PageBreaks(h, page, c);
      assert !StepBreaks(h, page, step, c);
    }
    forall c, u | u in ActionUses(a) ensures !UseBreaks(h, page, u, c) {
      assert !ActionBreaks(h, page, step, a, c);
    }
  }

  ghost predicate StmtsResolve(h: Host, keys: Option<seq<string>>, cls: ClassDecl, params: seq<Param>, stmts: seq<Stmt>) {
    forall st :: st in stmts ==> StmtResolves(h, keys, cls, params, st)
  }

  lemma StmtsAppend(h: Host, keys: Option<seq<string>>, cls: ClassDecl, params: seq<Param>, xs: seq<Stmt>, ys: seq<Stmt>)
    ensures StmtsResolve(h, keys, cls, params, xs + ys)
            <==> StmtsResolve(h, keys, cls, params, xs) && StmtsResolve(h, keys, cls, params, ys)
  {
    assert forall st :: st in xs + ys <==> st in xs || st in ys;
  }

  lemma OneStmt(h: Host, keys: Option<seq<string>>, cls: ClassDecl, params: seq<Param>, st: Stmt)
    ensures StmtsResolve(h, keys, cls, params, [st]) <==> StmtResolves(h, keys, cls, params, st)
  {
    assert st in [st];
  }

  ghost predicate UsesResolve(h: Host, keys: Option<seq<string>>, page: Page, cls: ClassDecl, params: seq<Param>,
                              uses: seq<Use>) {
    forall u :: u in uses ==> AccessResolves(h, keys, cls, params, Locate(h, page, u.ref, u.args))
  }

  lemma OneUse(h: Host, keys: Option<seq<string>>, page: Page, cls: ClassDecl, params: seq<Param>, u: Use)
    ensures UsesResolve(h, keys, page, cls, params, [u])
            <==> AccessResolves(h, keys, cls, params, Locate(h, page, u.ref, u.args))
  {
    assert u in [u];
  }

  lemma TwoUses(h: Host, keys: Option<seq<string>>, page: Page, cls: ClassDecl, params: seq<Param>, u: Use, v: Use)
    ensures UsesResolve(h, keys, page, cls, params, [u, v])
            <==> && AccessResolves(h, keys, cls, params, Locate(h, page, u.ref, u.args))
                 && AccessResolves(h, keys, cls, params, Locate(h, page, v.ref, v.args))
  {
    assert u in [u, v] && v in [u, v];
  }

  lemma InvokeIff(h: Host, keys: Option<seq<string>>, cls: ClassDecl, params: seq<Param>,
                  target: Access, operation: string, value: Option<Value>)
    requires value.Some? ==> ValueResolves(params, value.value)
    ensures StmtsResolve(h, keys, cls, params, [Invoke(target, operation, value)])
            <==> AccessResolves(h, keys, cls, params, target)
  {
    InheritedFacts(cls.base);
    OneStmt(h, keys, cls, params, Invoke(target, operation, value));
  }

  lemma DragIff(h: Host, keys: Option<seq<string>>, cls: ClassDecl, params: seq<Param>,
                source: Access, target: Access, native: bool)
    ensures StmtsResolve(h, keys, cls, params, [DragTo(source, target, native)])
            <==> AccessResolves(h, keys, cls, params, source) && AccessResolves(h, keys, cls, params, target)
  {
    InheritedFacts(cls.base);
    OneStmt(h, keys, cls, params, DragTo(source, target, native));
  }

  lemma PlainIff(h: Host, keys: Option<seq<string>>, cls: ClassDecl, params: seq<Param>, st: Stmt)
    requires st.GotoOwnPath? || st.PageCall? || st.WaitForLoad?
    requires st.GotoOwnPath? ==> cls.path.Some?
    ensures StmtsResolve(h, keys, cls, params, [st]) <==> (st.WaitForLoad? ==> cls.base.BasePage?)
  {
    InheritedFacts(cls.base);
    OneStmt(h, keys, cls, params, st);
  }

  /** The statements of an action resolve if and only if its accesses do and the base class can wait. */
  lemma EmittedActionIff(h: Host, keys: Option<seq<string>>, page: Page, cls: ClassDecl, params: seq<Param>, a: Action)
    requires a.Navigate? ==> cls.path.Some?
    requires a.Input? ==> ValueResolves(params, InputValue(a.value, a.param))
    ensures StmtsResolve(h, keys, cls, params, EmitAction(h, page, a)) <==>
            && UsesResolve(h, keys, page, cls, params, ActionUses(a))
            && (a.WaitForPageLoad? ==> cls.base.BasePage?)
  {
    match a {
      case Input(verb, ref, args, value, param) =>
        EmittedInputIff(h, keys, page, cls, params, a);
      case Point(p, ref, args) =>
        OneUse(h, keys, page, cls, params, Use(ref, args));
        InvokeIff(h, keys, cls, params, Locate(h, page, ref, args), PointOperation(p), None);
      case Drag(ref, args, toRef, toArgs, native) =>
        TwoUses(h, keys, page, cls, params, Use(ref, args), Use(toRef, toArgs));
        DragIff(h, keys, cls, params, Locate(h, page, ref, args), Locate(h, page, toRef, toArgs), native);
      case _ =>
        PlainIff(h, keys, cls, params, EmitAction(h, page, a)[0]);
    }
  }

  lemma EmittedInputIff(h: Host, keys: Option<seq<string>>, page: Page, cls: ClassDecl, params: seq<Param>, a: Action)
    requires a.Input? && ValueResolves(params, InputValue(a.value, a.param))
    ensures StmtsResolve(h, keys, cls, params, EmitAction(h, page, a))
            <==> UsesResolve(h, keys, page, cls, params, ActionUses(a))
  {
    var target, value := Locate(h, page, a.ref, a.refArgs), Some(InputValue(a.value, a.param));
    OneUse(h, keys, page, cls, params, Use(a.ref, a.refArgs));
    match a.verb {
      case Fill => InvokeIff(h, keys, cls, params, target, "fill", value);
      case Select => InvokeIff(h, keys, cls, params, target, "selectOption", value);
      case Type(clearFirst) =>
        var first := if clearFirst then [Invoke(target, "clear", None)] else [];
        StmtsAppend(h, keys, cls, params, first, [Invoke(target, "pressSequentially", value)]);
        InvokeIff(h, keys, cls, params, target, "pressSequentially", value);
        InvokeIff(h, keys, cls, params, target, "clear", None);
    }
  }

  lemma ActionResolvesIff(h: Host, s: Schema, page: Page, barrel: Option<string>, step: StepDef, a: Action)
    requires HostOk(h) && PageTyped(h, page)
    requires step in page.steps && a in step.actions && !(page.isPanel && a.Navigate?)
    requires BuildPageObject(h, page, barrel).Ok? && FileOf(h, s, page, BuildPageObject(h, page, barrel).value)
    ensures StmtsResolve(h, ExpectedKeys(s), BuildPageObject(h, page, barrel).value, step.params, EmitAction(h, page, a))
            <==> ActionSound(h, s, page, step.params, a)
  {
    NoActionBreaks(h, page, step, a);
    var cls := BuildPageObject(h, page, barrel).value;
    forall u | u in ActionUses(a)
      ensures AccessResolves(h, ExpectedKeys(s), cls, step.params, Locate(h, page, u.ref, u.args))
              <==> UseSound(h, s, page, step.params, u)
    {
      LocateResolvesIff(h, s, page, barrel, step.params, u);
    }
    assert !ActionBreaks(h, page, step, a, FillValueParamExclusive) && !ActionBreaks(h, page, step, a, UnknownStepParam);
    EmittedActionIff(h, ExpectedKeys(s), page, cls, step.params, a);
  }

  lemma {:induction false} ActionsResolveIff(h: Host, s: Schema, page: Page, barrel: Option<string>, step: StepDef, k: nat)
    requires HostOk(h) && PageTyped(h, page) && step in page.steps && k <= |step.actions|
    requires BuildPageObject(h, page, barrel).Ok? && FileOf(h, s, page, BuildPageObject(h, page, barrel).value)
    ensures StmtsResolve(h, ExpectedKeys(s), BuildPageObject(h, page, barrel).value, step.params,
                         EmitActions(h, page, step.actions[k..]))
            <==> forall i :: k <= i < |step.actions| ==> ActionSound(h, s, page, step.params, step.actions[i])
    decreases |step.actions| - k
  {
    if k < |step.actions| {
      var a, keys, cls := step.actions[k], ExpectedKeys(s), BuildPageObject(h, page, barrel).value;
      ActionsResolveIff(h, s, page, barrel, step, k + 1);
      assert step.actions[k..][1..] == step.actions[k + 1..];
      if page.isPanel && a.Navigate? {
        assert ActionSound(h, s, page, step.params, a);
        assert EmitActions(h, page, step.actions[k..]) == EmitActions(h, page, step.actions[k + 1..]);
      } else {
        ActionResolvesIff(h, s, page, barrel, step, a);
        StmtsAppend(h, keys, cls, step.params, EmitAction(h, page, a), EmitActions(h, page, step.actions[k + 1..]));
      }
    }
  }

  // ----- Verifies -----

  lemma NoAssertionBreaks(h: Host, s: Schema, page: Page, v: VerifyDef, a: Assertion)
    requires PageTyped(h, page) && PageExprsTyped(h, s, page)
    requires v in page.verifies && a in v.assertions
    ensures forall c :: !AssertionBreaks(h, page, a, c)
    ensures Filled(a.arg) ==> forall c :: !ExprBreaks(h, s, a.arg.value, c)
  {
    forall c
      ensures !AssertionBreaks(h, page, a, c)
      ensures Filled(a.arg) ==> !ExprBreaks(h, s, a.arg.value, c)
    {
      assert !PageBreaks(h, page, c) && !PageExprBreaks(h, s, page, c);
      assert !VerifyBreaks(h, page, v, c) && !VerifyExprBreaks(h, s, v, c);
    }
  }

  /** What the checker is worth to an asserted argument: where the pattern sees every use and every key of
      `expected`, only its other names are left to the caller, and that no parameter hides it. */
  lemma SeenReadsResolveIff(h: Host, s: Schema, page: Page, v: VerifyDef, a: Assertion)
    requires PageTyped(h, page) && PageExprsTyped(h, s, page)
    requires v in page.verifies && a in v.assertions && Filled(a.arg)
    requires "expected" in h.freeNames(a.arg.value) ==>
               h.expectedKeys(a.arg.value) != [] && forall k :: k in h.readKeys(a.arg.value) ==> k in h.expectedKeys(a.arg.value)
    ensures var scope := PageScope(h, s, page, v.params);
            NamesResolve(h, ExpectedKeys(s), scope, a.arg.value) <==>
            && (forall n :: n in h.freeNames(a.arg.value) && n != "expected" ==> n in scope.locals || n in scope.file)
            && ("expected" in h.freeNames(a.arg.value) ==> "expected" !in scope.locals)
  {
    var e := a.arg.value;
    NoAssertionBreaks(h, s, page, v, a);
    if "expected" in h.freeNames(e) {
      assert !ExprBreaks(h, s, e, ExpectedBlockMissing) && !ExprBreaks(h, s, e, UnknownExpectedKey);
      assert ImportsExpected(h, s, page);
    }
  }

  lemma AssertedArgIff(h: Host, s: Schema, page: Page, cls: ClassDecl, v: VerifyDef, a: Assertion)
    requires PageTyped(h, page) && PageExprsTyped(h, s, page) && FileOf(h, s, page, cls)
    requires v in page.verifies && a in v.assertions
    ensures ExprResolves(h, ExpectedKeys(s), ClassScope(cls, v.params), ArgText(a.arg))
            <==> NamesResolve(h, ExpectedKeys(s), PageScope(h, s, page, v.params), ArgText(a.arg))
                 && (ArgText(a.arg) != "" ==> h.enclosed(ArgText(a.arg)))
  {
    NoAssertionBreaks(h, s, page, v, a);
    ScopesAgree(h, s, page, cls, v.params);
    assert !AssertionBreaks(h, page, a, InvalidExpression);
  }

  lemma ExpectPageIff(h: Host, keys: Option<seq<string>>, cls: ClassDecl, params: seq<Param>, matcher: string, arg: string)
    requires "expect" in cls.playwright
    ensures StmtsResolve(h, keys, cls, params, [ExpectPage(matcher, arg)])
            <==> ExprResolves(h, keys, ClassScope(cls, params), arg) && "expect" !in ParamNames(params)
  {
    InheritedFacts(cls.base);
    OneStmt(h, keys, cls, params, ExpectPage(matcher, arg));
  }

  lemma ExpectElementIff(h: Host, keys: Option<seq<string>>, cls: ClassDecl, params: seq<Param>,
                         target: Access, waitFor: Option<string>, matcher: string, arg: string)
    requires "expect" in cls.playwright
    ensures StmtsResolve(h, keys, cls, params, (if waitFor.Some? then [WaitFor(target, waitFor.value)] else [])
                                               + [ExpectElement(target, matcher, arg)]) <==>
            && AccessResolves(h, keys, cls, params, target)
            && ExprResolves(h, keys, ClassScope(cls, params), arg) && "expect" !in ParamNames(params)
  {
    var first := if waitFor.Some? then [WaitFor(target, waitFor.value)] else [];
    StmtsAppend(h, keys, cls, params, first, [ExpectElement(target, matcher, arg)]);
    OneStmt(h, keys, cls, params, ExpectElement(target, matcher, arg));
    if waitFor.Some? {
      OneStmt(h, keys, cls, params, WaitFor(target, waitFor.value));
    }
  }

  lemma EmittedAssertionIff(h: Host, keys: Option<seq<string>>, page: Page, cls: ClassDecl, params: seq<Param>, a: Assertion)
    requires "expect" in cls.playwright
    ensures StmtsResolve(h, keys, cls, params, EmitAssertion(h, page, a)) <==>
            && ExprResolves(h, keys, ClassScope(cls, params), ArgText(a.arg)) && "expect" !in ParamNames(params)
            && (a.OnElement? ==> AccessResolves(h, keys, cls, params, Locate(h, page, a.ref, a.refArgs)))
  {
    match a {
      case OnPage(matcher, arg) => ExpectPageIff(h, keys, cls, params, matcher, ArgText(arg));
      case OnElement(ref, args, waitFor, matcher, arg) =>
        ExpectElementIff(h, keys, cls, params, Locate(h, page, ref, args), waitFor, matcher, ArgText(arg));
    }
  }

  lemma AssertionResolvesIff(h: Host, s: Schema, page: Page, barrel: Option<string>, v: VerifyDef, a: Assertion)
    requires HostOk(h) && PageTyped(h, page) && PageExprsTyped(h, s, page)
    requires v in page.verifies && a in v.assertions
    requires BuildPageObject(h, page, barrel).Ok? && FileOf(h, s, page, BuildPageObject(h, page, barrel).value)
    ensures StmtsResolve(h, ExpectedKeys(s), BuildPageObject(h, page, barrel).value, v.params, EmitAssertion(h, page, a))
            <==> AssertionSound(h, s, page, v.params, a)
  {
    var cls := BuildPageObject(h, page, barrel).value;
    if a.OnElement? {
      ElementUseIff(h, s, page, barrel, v, a);
    }
    AssertedArgIff(h, s, page, cls, v, a);
    EmittedAssertionIff(h, ExpectedKeys(s), page, cls, v.params, a);
  }

  lemma ElementUseIff(h: Host, s: Schema, page: Page, barrel: Option<string>, v: VerifyDef, a: Assertion)
    requires HostOk(h) && PageTyped(h, page) && PageExprsTyped(h, s, page)
    requires v in page.verifies && a in v.assertions && a.OnElement?
    requires BuildPageObject(h, page, barrel).Ok? && FileOf(h, s, page, BuildPageObject(h, page, barrel).value)
    ensures AccessResolves(h, ExpectedKeys(s), BuildPageObject(h, page, barrel).value, v.params,
                           Locate(h, page, a.ref, a.refArgs))
            <==> forall u :: u in AssertionUses(a) ==> UseSound(h, s, page, v.params, u)
  {
    NoAssertionBreaks(h, s, page, v, a);
    var u := Use(a.ref, a.refArgs);
    assert u in AssertionUses(a);
    forall c ensures !UseBreaks(h, page, u, c) {
      assert !AssertionBreaks(h, page, a, c);
    }
    LocateResolvesIff(h, s, page, barrel, v.params, u);
  }

  lemma {:induction false} AssertionsResolveIff(h: Host, s: Schema, page: Page, barrel: Option<string>, v: VerifyDef, k: nat)
    requires HostOk(h) && PageTyped(h, page) && PageExprsTyped(h, s, page)
    requires v in page.verifies && k <= |v.assertions|
    requires BuildPageObject(h, page, barrel).Ok? && FileOf(h, s, page, BuildPageObject(h, page, barrel).value)
    ensures StmtsResolve(h, ExpectedKeys(s), BuildPageObject(h, page, barrel).value, v.params,
                         EmitAssertions(h, page, v.assertions[k..]))
            <==> forall i :: k <= i < |v.assertions| ==> AssertionSound(h, s, page, v.params, v.assertions[i])
    decreases |v.assertions| - k
  {
    if k < |v.assertions| {
      var a, keys, cls := v.assertions[k], ExpectedKeys(s), BuildPageObject(h, page, barrel).value;
      AssertionsResolveIff(h, s, page, barrel, v, k + 1);
      assert v.assertions[k..][1..] == v.assertions[k + 1..];
      AssertionResolvesIff(h, s, page, barrel, v, a);
      StmtsAppend(h, keys, cls, v.params, EmitAssertion(h, page, a), EmitAssertions(h, page, v.assertions[k + 1..]));
    }
  }

  // ----- Methods and classes -----

  lemma StepMethodIff(h: Host, s: Schema, page: Page, barrel: Option<string>, st: StepDef)
    requires HostOk(h) && PageTyped(h, page) && st in page.steps
    requires BuildPageObject(h, page, barrel).Ok? && FileOf(h, s, page, BuildPageObject(h, page, barrel).value)
    ensures MethodResolves(h, ExpectedKeys(s), BuildPageObject(h, page, barrel).value, StepMethod(h, page, st))
            <==> StepSound(h, s, page, st)
  {
    ActionsResolveIff(h, s, page, barrel, st, 0);
    assert st.actions[0..] == st.actions;
    assert StepMethod(h, page, st).body == EmitActions(h, page, st.actions);
  }

  lemma VerifyMethodIff(h: Host, s: Schema, page: Page, barrel: Option<string>, v: VerifyDef)
    requires HostOk(h) && PageTyped(h, page) && PageExprsTyped(h, s, page) && v in page.verifies
    requires BuildPageObject(h, page, barrel).Ok? && FileOf(h, s, page, BuildPageObject(h, page, barrel).value)
    ensures MethodResolves(h, ExpectedKeys(s), BuildPageObject(h, page, barrel).value, VerifyMethod(h, page, v))
            <==> VerifySound(h, s, page, v)
  {
    AssertionsResolveIff(h, s, page, barrel, v, 0);
    assert v.assertions[0..] == v.assertions;
    assert VerifyMethod(h, page, v).body == EmitAssertions(h, page, v.assertions);
  }

  ghost function GoodMethod(h: Host, keys: Option<seq<string>>, cls: ClassDecl): MethodDecl -> bool {
    (m: MethodDecl) => MethodResolves(h, keys, cls, m)
  }

  ghost function GoodStep(h: Host, s: Schema, page: Page): StepDef -> bool {
    (st: StepDef) => StepSound(h, s, page, st)
  }

  ghost function GoodVerify(h: Host, s: Schema, page: Page): VerifyDef -> bool {
    (v: VerifyDef) => VerifySound(h, s, page, v)
  }

  lemma StepMethodAt(h: Host, s: Schema, page: Page, barrel: Option<string>, i: nat)
    requires HostOk(h) && PageTyped(h, page) && i < |page.steps|
    requires BuildPageObject(h, page, barrel).Ok? && FileOf(h, s, page, BuildPageObject(h, page, barrel).value)
    ensures GoodMethod(h, ExpectedKeys(s), BuildPageObject(h, page, barrel).value)(Methods(h, page)[i])
            == GoodStep(h, s, page)(page.steps[i])
  {
    StepMethodIff(h, s, page, barrel, page.steps[i]);
  }

  lemma VerifyMethodAt(h: Host, s: Schema, page: Page, barrel: Option<string>, j: nat)
    requires HostOk(h) && PageTyped(h, page) && PageExprsTyped(h, s, page) && j < |page.verifies|
    requires BuildPageObject(h, page, barrel).Ok? && FileOf(h, s, page, BuildPageObject(h, page, barrel).value)
    ensures GoodMethod(h, ExpectedKeys(s), BuildPageObject(h, page, barrel).value)(Methods(h, page)[|page.steps| + j])
            == GoodVerify(h, s, page)(page.verifies[j])
  {
    VerifyMethodIff(h, s, page, barrel, page.verifies[j]);
    assert Methods(h, page)[|page.steps| + j] == VerifyMethod(h, page, page.verifies[j]);
  }

  lemma StepMethodsMatch(h: Host, s: Schema, page: Page, barrel: Option<string>)
    requires HostOk(h) && PageTyped(h, page)
    requires BuildPageObject(h, page, barrel).Ok? && FileOf(h, s, page, BuildPageObject(h, page, barrel).value)
    ensures Translated(Methods(h, page), page.steps, 0,
                       GoodMethod(h, ExpectedKeys(s), BuildPageObject(h, page, barrel).value), GoodStep(h, s, page))
  {
    var good := GoodMethod(h, ExpectedKeys(s), BuildPageObject(h, page, barrel).value);
    forall i | 0 <= i < |page.steps|
      ensures 0 + i < |Methods(h, page)| && good(Methods(h, page)[0 + i]) == GoodStep(h, s, page)(page.steps[i])
    {
      StepMethodAt(h, s, page, barrel, i);
    }
  }

  lemma VerifyMethodsMatch(h: Host, s: Schema, page: Page, barrel: Option<string>)
    requires HostOk(h) && PageTyped(h, page) && PageExprsTyped(h, s, page)
    requires BuildPageObject(h, page, barrel).Ok? && FileOf(h, s, page, BuildPageObject(h, page, barrel).value)
    ensures Translated(Methods(h, page), page.verifies, |page.steps|,
                       GoodMethod(h, ExpectedKeys(s), BuildPageObject(h, page, barrel).value), GoodVerify(h, s, page))
  {
    var n, good := |page.steps|, GoodMethod(h, ExpectedKeys(s), BuildPageObject(h, page, barrel).value);
    forall j | 0 <= j < |page.verifies|
      ensures n + j < |Methods(h, page)| && good(Methods(h, page)[n + j]) == GoodVerify(h, s, page)(page.verifies[j])
    {
      VerifyMethodAt(h, s, page, barrel, j);
    }
  }

  lemma MethodsResolveIff(h: Host, s: Schema, page: Page, barrel: Option<string>)
    requires HostOk(h) && PageTyped(h, page) && PageExprsTyped(h, s, page)
    requires BuildPageObject(h, page, barrel).Ok? && FileOf(h, s, page, BuildPageObject(h, page, barrel).value)
    ensures (forall m :: m in Methods(h, page) ==>
               GoodMethod(h, ExpectedKeys(s), BuildPageObject(h, page, barrel).value)(m)) <==>
            && (forall st :: st in page.steps ==> GoodStep(h, s, page)(st))
            && (forall v :: v in page.verifies ==> GoodVerify(h, s, page)(v))
  {
    StepMethodsMatch(h, s, page, barrel);
    VerifyMethodsMatch(h, s, page, barrel);
    TwoPartsIff(Methods(h, page), page.steps, page.verifies,
                GoodMethod(h, ExpectedKeys(s), BuildPageObject(h, page, barrel).value),
                GoodStep(h, s, page), GoodVerify(h, s, page));
  }

  /** From a position on, each output is good exactly when its input is. */
  ghost predicate Translated<A(!new), B(!new)>(out: seq<A>, xs: seq<B>, start: nat, good: A -> bool, px: B -> bool) {
    start + |xs| <= |out| && forall i :: 0 <= i < |xs| ==> good(out[start + i]) == px(xs[i])
  }

  /** A list made of two translated parts is good throughout if and only if both parts are. */
  lemma TwoPartsIff<A(!new), B(!new), C(!new)>(out: seq<A>, xs: seq<B>, ys: seq<C>, good: A -> bool, px: B -> bool, py: C -> bool)
    requires |out| == |xs| + |ys|
    requires Translated(out, xs, 0, good, px) && Translated(out, ys, |xs|, good, py)
    ensures (forall m :: m in out ==> good(m)) <==> (forall x :: x in xs ==> px(x)) && (forall y :: y in ys ==> py(y))
  {
    if forall m :: m in out ==> good(m) {
      forall x | x in xs ensures px(x) {
        var i :| 0 <= i < |xs| && xs[i] == x;
        assert out[0 + i] in out;
      }
      forall y | y in ys ensures py(y) {
        var j :| 0 <= j < |ys| && ys[j] == y;
        assert out[|xs| + j] in out;
      }
    }
    if (forall x :: x in xs ==> px(x)) && (forall y :: y in ys ==> py(y)) {
      forall m | m in out ensures good(m) {
        var i :| 0 <= i < |out| && out[i] == m;
        if i < |xs| {
          assert xs[i] in xs;
        } else {
          assert out[|xs| + (i - |xs|)] == m && ys[i - |xs|] in ys;
        }
      }
    }
  }

  lemma BuiltImport(h: Host, s: Schema, page: Page, feature: string)
    requires BuildPageObject(h, page, Barrel(h, s, feature)).Ok? && s.expected != Some([])
    ensures var cls := BuildPageObject(h, page, Barrel(h, s, feature)).value;
            && FileOf(h, s, page, cls) && cls.methods == Methods(h, page)
            && (cls.expectedImport.Some? ==> cls.expectedImport == ExpectedExport(h, s, feature))
  {
    BuiltParts(h, page, Barrel(h, s, feature));
    ImportedFromPlaywright(page);
  }

  /** The class of an accepted page resolves if and only if the page keeps the rules the checker does not
      have: a free class name and path field, nothing inherited hidden, sound arguments, no hidden `expect`, and no
      panel waiting for a load. */
  lemma TypedPageResolvesIff(h: Host, s: Schema, page: Page, feature: string)
    requires HostOk(h) && PageTyped(h, page) && PageExprsTyped(h, s, page) && MethodsPrefixed(page)
    requires s.expected != Some([])
    ensures BuildPageObject(h, page, Barrel(h, s, feature)).Ok?
    ensures ClassResolves(h, ExpectedKeys(s), ExpectedExport(h, s, feature),
                          BuildPageObject(h, page, Barrel(h, s, feature)).value)
            <==> PageSound(h, s, page)
  {
    var barrel := Barrel(h, s, feature);
    ClassNamesDistinctIff(h, page, barrel);
    NothingHidesIff(h, page, barrel);
    BuiltImport(h, s, page, feature);
    MethodsResolveIff(h, s, page, barrel);
    var keys, cls := ExpectedKeys(s), BuildPageObject(h, page, barrel).value;
    assert forall m :: GoodMethod(h, keys, cls)(m) == MethodResolves(h, keys, cls, m);
    assert forall st :: GoodStep(h, s, page)(st) == StepSound(h, s, page, st);
    assert forall v :: GoodVerify(h, s, page)(v) == VerifySound(h, s, page, v);
  }
}
