/** Locator rendering and field naming (apps/runtime-mcp/src/codegen/locator-derive.ts), with the
    emitted source kept as a syntax tree. */
module CodegenLocator {
  import opened Option
  import opened CodegenSchema
  import LocatorEscaping
  import Text

  // ----- Placeholders: the regular expression /\{([^}]+)\}/g -----

  datatype Piece = Lit(c: char) | Hole(name: string)

  function Pieces(s: string): seq<Piece> {
    if s == [] then []
    else
      var k := Text.IndexOfChar(s[1..], '}');
      if s[0] == '{' && 0 < k < |s[1..]| then
        [Hole(Text.Trim(s[1..1 + k]))] + Pieces(s[k + 2..])
      else [Lit(s[0])] + Pieces(s[1..])
  }

  function HolesOf(ps: seq<Piece>): seq<string> {
    if ps == [] then []
    else (if ps[0].Hole? then [ps[0].name] else []) + HolesOf(ps[1..])
  }

  function ExtractPlaceholders(s: string): seq<string> {
    HolesOf(Pieces(s))
  }

  // ----- Field names -----

  function StripPlaceholders(s: string): string {
    if s == [] then []
    else
      var k := Text.IndexOfChar(s[1..], '}');
      if s[0] == '{' && k < |s[1..]| then StripPlaceholders(s[k + 2..])
      else [s[0]] + StripPlaceholders(s[1..])
  }

  const TAG_SUFFIX: map<string, string> := map[
    "input" := "Input", "button" := "Button", "select" := "Select", "textarea" := "Textarea",
    "a" := "Link", "form" := "Form", "div" := "Div", "span" := "Span", "table" := "Table",
    "h1" := "Heading", "h2" := "Heading", "h3" := "Heading", "img" := "Image", "label" := "Label",
    "li" := "Item", "ul" := "List"]

  function TagSuffix(tag: string): string {
    if tag in TAG_SUFFIX then TAG_SUFFIX[tag] else "Element"
  }

  predicate IsAlphanumeric(c: char) {
    'a' <= c <= 'z' || 'A' <= c <= 'Z' || '0' <= c <= '9'
  }

  /** /^[a-z][a-zA-Z0-9]*$/ */
  predicate IsCamelCaseField(s: string) {
    s != "" && 'a' <= s[0] <= 'z' && forall i :: 0 < i < |s| ==> IsAlphanumeric(s[i])
  }

  /** /^e\d+$/ */
  predicate IsGenericRef(s: string) {
    |s| > 1 && s[0] == 'e' && forall i :: 0 < i < |s| ==> '0' <= s[i] <= '9'
  }

  predicate Filled(o: Option<string>) {
    o.Some? && o.value != ""
  }

  function DeriveFieldName(h: Host, el: Element): string {
    if Filled(el.testid) then h.camelCase(StripPlaceholders(el.testid.value)) + TagSuffix(el.tag)
    else if Filled(el.name) then h.camelCase(StripPlaceholders(el.name.value)) + TagSuffix(el.tag)
    else if IsCamelCaseField(el.ref) && !IsGenericRef(el.ref) then el.ref
    else if Filled(el.role) then h.camelCase(StripPlaceholders(el.role.value)) + TagSuffix(el.tag)
    else h.camelCase(el.tag) + TagSuffix(el.tag)
  }

  function Refs(els: seq<Element>): seq<string> {
    seq(|els|, i requires 0 <= i < |els| => els[i].ref)
  }

  function FieldNames(h: Host, els: seq<Element>): seq<string> {
    seq(|els|, i requires 0 <= i < |els| => DeriveFieldName(h, els[i]))
  }

  function Count(names: seq<string>, name: string): nat {
    if names == [] then 0
    else Count(names[..|names| - 1], name) + if names[|names| - 1] == name then 1 else 0
  }

  /** What a name becomes after the names before it: itself, or itself with a running number. */
  function Numbered(before: seq<string>, name: string): string {
    var count := Count(before, name);
    if count == 0 then name else name + Text.Dec(count + 1)
  }

  function NumberedMap(refs: seq<string>, names: seq<string>): map<string, string>
    requires |refs| == |names|
  {
    if names == [] then map[]
    else
      var n := |names| - 1;
      NumberedMap(refs[..n], names[..n])[refs[n] := Numbered(names[..n], names[n])]
  }

  function FieldMap(h: Host, els: seq<Element>): map<string, string> {
    NumberedMap(Refs(els), FieldNames(h, els))
  }

  lemma CountSnoc(names: seq<string>, x: string, name: string)
    ensures Count(names + [x], name) == Count(names, name) + if x == name then 1 else 0
  {
    assert (names + [x])[..|names|] == names;
  }

  lemma {:induction false} CountPositive(names: seq<string>, name: string)
    ensures Count(names, name) > 0 <==> name in names
  {
    if names != [] {
      var front, x := names[..|names| - 1], names[|names| - 1];
      CountPositive(front, name);
      CountSnoc(front, x, name);
      assert names == front + [x];
    }
  }

  /** The state of the loop: the map so far, and how often each name has been used. */
  ghost predicate Numbering(fieldMap: map<string, string>, used: map<string, nat>, refs: seq<string>, names: seq<string>) {
    && |refs| == |names|
    && fieldMap == NumberedMap(refs, names)
    && forall name :: (if name in used then used[name] else 0) == Count(names, name)
  }

  lemma NumberingSnoc(fieldMap: map<string, string>, used: map<string, nat>, refs: seq<string>, names: seq<string>,
                      ref: string, name: string)
    requires Numbering(fieldMap, used, refs, names)
    ensures var count := if name in used then used[name] else 0;
            Numbering(fieldMap[ref := if count == 0 then name else name + Text.Dec(count + 1)],
                      used[name := count + 1], refs + [ref], names + [name])
  {
    assert (refs + [ref])[..|refs|] == refs && (names + [name])[..|names|] == names;
    forall n ensures Count(names + [name], n) == Count(names, n) + if name == n then 1 else 0 {
      CountSnoc(names, name, n);
    }
  }

  lemma NumberingStep(fieldMap: map<string, string>, used: map<string, nat>, refs: seq<string>, names: seq<string>, i: nat)
    requires |refs| == |names| && i < |names|
    requires Numbering(fieldMap, used, refs[..i], names[..i])
    ensures var name := names[i];
            var count := if name in used then used[name] else 0;
            Numbering(fieldMap[refs[i] := if count == 0 then name else name + Text.Dec(count + 1)],
                      used[name := count + 1], refs[..i + 1], names[..i + 1])
  {
    NumberingSnoc(fieldMap, used, refs[..i], names[..i], refs[i], names[i]);
    assert refs[..i + 1] == refs[..i] + [refs[i]] && names[..i + 1] == names[..i] + [names[i]];
  }

  lemma NumberingStart(refs: seq<string>, names: seq<string>)
    ensures Numbering(map[], map[], refs[..0], names[..0])
  {
  }

  lemma NumberingEnd(fieldMap: map<string, string>, used: map<string, nat>, refs: seq<string>, names: seq<string>)
    requires |refs| == |names| && Numbering(fieldMap, used, refs[..|refs|], names[..|refs|])
    ensures fieldMap == NumberedMap(refs, names)
  {
    assert refs[..|refs|] == refs && names[..|refs|] == names;
  }

  method DeduplicateFieldNames(h: Host, elements: seq<Element>) returns (fieldMap: map<string, string>)
    ensures fieldMap == FieldMap(h, elements)
  {
    fieldMap := map[];
    var usedNames: map<string, nat> := map[];
    ghost var refs, names := Refs(elements), FieldNames(h, elements);
    NumberingStart(refs, names);
    for i := 0 to |elements|
      invariant Numbering(fieldMap, usedNames, refs[..i], names[..i])
    {
      NumberingStep(fieldMap, usedNames, refs, names, i);
      var base := DeriveFieldName(h, elements[i]);
      var count := if base in usedNames then usedNames[base] else 0;
      var name := if count == 0 then base else base + Text.Dec(count + 1);
      usedNames := usedNames[base := count + 1];
      fieldMap := fieldMap[elements[i].ref := name];
    }
    NumberingEnd(fieldMap, usedNames, refs, names);
  }

  ghost predicate DistinctRefs(els: seq<Element>) {
    forall i, j :: 0 <= i < j < |els| ==> els[i].ref != els[j].ref
  }

  ghost predicate DistinctFieldNames(h: Host, els: seq<Element>) {
    forall i, j :: 0 <= i < j < |els| ==> DeriveFieldName(h, els[i]) != DeriveFieldName(h, els[j])
  }

  ghost predicate Distinct(names: seq<string>) {
    forall i, j :: 0 <= i < j < |names| ==> names[i] != names[j]
  }

  lemma {:induction false} NumberedMapAt(refs: seq<string>, names: seq<string>, i: nat)
    requires |refs| == |names| && i < |names| && Distinct(refs)
    ensures refs[i] in NumberedMap(refs, names) && NumberedMap(refs, names)[refs[i]] == Numbered(names[..i], names[i])
    decreases |names|
  {
    var n := |names| - 1;
    var r, m := refs[..n], names[..n];
    var before, last := NumberedMap(r, m), Numbered(m, names[n]);
    assert NumberedMap(refs, names) == before[refs[n] := last];
    if i < n {
      NumberedMapAt(r, m, i);
      assert m[..i] == names[..i] && refs[i] != refs[n];
    }
  }

  lemma NumberedIsItselfIff(names: seq<string>, i: nat)
    requires i < |names|
    ensures Numbered(names[..i], names[i]) == names[i] <==> names[i] !in names[..i]
  {
    CountPositive(names[..i], names[i]);
    if Count(names[..i], names[i]) > 0 {
      assert |Numbered(names[..i], names[i])| > |names[i]|;
    }
  }

  lemma DistinctIff(names: seq<string>)
    ensures Distinct(names) <==> forall i :: 0 <= i < |names| ==> names[i] !in names[..i]
  {
    if forall i :: 0 <= i < |names| ==> names[i] !in names[..i] {
      forall i, j | 0 <= i < j < |names| ensures names[i] != names[j] {
        assert names[..j][i] == names[i];
      }
    }
  }

  /** With distinct refs, every element keeps its own derived name exactly when those names are distinct:
      then the map is injective and no running number is ever added. */
  lemma DeduplicationIsIdleIff(h: Host, els: seq<Element>)
    requires DistinctRefs(els)
    ensures DistinctFieldNames(h, els) <==>
            forall i :: 0 <= i < |els| ==>
              els[i].ref in FieldMap(h, els) && FieldMap(h, els)[els[i].ref] == DeriveFieldName(h, els[i])
  {
    var refs, names := Refs(els), FieldNames(h, els);
    forall i | 0 <= i < |els|
      ensures els[i].ref in FieldMap(h, els)
      ensures FieldMap(h, els)[els[i].ref] == DeriveFieldName(h, els[i]) <==> names[i] !in names[..i]
    {
      NumberedMapAt(refs, names, i);
      NumberedIsItselfIff(names, i);
    }
    DistinctIff(names);
  }

  // ----- Structured locators -----

  predicate IsDynamic(el: Element) {
    el.dynParams != []
  }

  const NAME_PROHIBITED_ROLES := {"alert", "status", "log", "timer", "marquee", "alertdialog"}

  const BLANK := Locator(TestId, None, None, None, None, None, None, [])

  function ResolveLocator(el: Element): Option<Locator> {
    if el.locator.Some? then el.locator
    else if el.testid.Some? && el.testidAttr.Some? then
      Some(BLANK.(attr := el.testidAttr, value := el.testid))
    else if Filled(el.role) then
      var useName := Filled(el.name) && el.role.value !in NAME_PROHIBITED_ROLES;
      Some(BLANK.(strategy := RoleName, role := el.role, name := if useName then el.name else None))
    else if Filled(el.name) then Some(BLANK.(strategy := ByText, value := el.name))
    else None
  }

  // ----- The emitted expression -----

  /** A static literal is single-quoted, a dynamic one is a backtick template with holes. */
  datatype TsLit = Quoted(text: string) | Template(pieces: seq<Piece>)

  datatype LocCall =
    | GetByTestId(lit: TsLit)
    | GetByRole(role: string, name: Option<TsLit>, exact: bool)
    | GetByLabel(lit: TsLit)
    | GetByPlaceholder(lit: TsLit)
    | GetByText(lit: TsLit)
    | XPathLocator(lit: TsLit)

  datatype LocExpr = LocExpr(frames: seq<TsLit>, calls: seq<LocCall>)

  datatype LocError = NoLocator | HopWithoutXPath | UnrenderableHop | NoRole | NoValue | NoXPath

  function MakeLit(value: string, dynamic: bool): TsLit {
    if dynamic then Template(Pieces(value)) else Quoted(value)
  }

  /** One step of the shared role chain: a name is bound only when it is non-empty. */
  function RoleStep(role: string, name: Option<string>, exact: bool, dynamic: bool): LocCall {
    if Filled(name) then GetByRole(role, Some(MakeLit(name.value, dynamic)), exact)
    else GetByRole(role, None, exact)
  }

  function RenderRoleChain(loc: Locator, dynamic: bool): Result<seq<LocCall>, LocError> {
    if loc.strategy == RoleName then
      if Filled(loc.role) then Ok([RoleStep(loc.role.value, loc.name, true, dynamic)]) else Err(NoRole)
    else if loc.strategy == Scoped && loc.role.Some? && loc.container.Some? then
      Ok([RoleStep(loc.container.value.role, Some(loc.container.value.name), false, dynamic),
          RoleStep(loc.role.value, loc.name, true, dynamic)])
    else Err(NoRole)
  }

  /** XPath source of one frame hop. */
  function HopXPath(hop: Locator): Result<string, LocError> {
    match hop.strategy
    case TestId =>
      var attr := if hop.attr.Some? then hop.attr.value else "undefined";
      var value := if hop.value.Some? then hop.value.value else "";
      Ok(LocatorEscaping.HopXPath(attr, value))
    case TestIdXPath | DomId | AttrCombo | Nth =>
      if Filled(hop.xpath) then Ok(hop.xpath.value) else Err(HopWithoutXPath)
    case _ => Err(UnrenderableHop)
  }

  function RenderFrames(hops: seq<Locator>, dynamic: bool): Result<seq<TsLit>, LocError> {
    if hops == [] then Ok([])
    else
      match HopXPath(hops[0])
      case Err(e) => Err(e)
      case Ok(xp) =>
        match RenderFrames(hops[1..], dynamic)
        case Err(e) => Err(e)
        case Ok(rest) => Ok([MakeLit("xpath=" + xp, dynamic)] + rest)
  }

  function RenderCalls(loc: Locator, dynamic: bool): Result<seq<LocCall>, LocError> {
    match loc.strategy
    case RoleName | Scoped => RenderRoleChain(loc, dynamic)
    case TestId => if Filled(loc.value) then Ok([GetByTestId(MakeLit(loc.value.value, dynamic))]) else Err(NoValue)
    case Label => if Filled(loc.value) then Ok([GetByLabel(MakeLit(loc.value.value, dynamic))]) else Err(NoValue)
    case Placeholder =>
      if Filled(loc.value) then Ok([GetByPlaceholder(MakeLit(loc.value.value, dynamic))]) else Err(NoValue)
    case ByText => if Filled(loc.value) then Ok([GetByText(MakeLit(loc.value.value, dynamic))]) else Err(NoValue)
    case _ => if Filled(loc.xpath) then Ok([XPathLocator(MakeLit(loc.xpath.value, dynamic))]) else Err(NoXPath)
  }

  /** deriveLocator, with its thrown error as an Err. */
  function DeriveLocator(el: Element): Result<LocExpr, LocError> {
    match ResolveLocator(el)
    case None => Err(NoLocator)
    case Some(loc) =>
      match RenderFrames(loc.framePath, IsDynamic(el))
      case Err(e) => Err(e)
      case Ok(frames) =>
        match RenderCalls(loc, IsDynamic(el))
        case Err(e) => Err(e)
        case Ok(calls) => Ok(LocExpr(frames, calls))
  }

  // ----- Names an emitted expression refers to -----

  function LitNames(l: TsLit): seq<string> {
    if l.Quoted? then [] else HolesOf(l.pieces)
  }

  function CallNames(c: LocCall): seq<string> {
    match c
    case GetByRole(_, name, _) => if name.Some? then LitNames(name.value) else []
    case GetByTestId(l) => LitNames(l)
    case GetByLabel(l) => LitNames(l)
    case GetByPlaceholder(l) => LitNames(l)
    case GetByText(l) => LitNames(l)
    case XPathLocator(l) => LitNames(l)
  }

  ghost predicate RefersTo(e: LocExpr, name: string) {
    || (exists l :: l in e.frames && name in LitNames(l))
    || (exists c :: c in e.calls && name in CallNames(c))
  }

  // ----- The slot the checker looks at, and the slots it does not -----

  /** locatorValueForPlaceholders */
  function CheckedSlot(el: Element): Option<string> {
    match ResolveLocator(el)
    case None => None
    case Some(loc) =>
      match loc.strategy
      case TestId | Label | Placeholder | ByText => loc.value
      case RoleName | Scoped => loc.name
      case _ => loc.xpath
  }

  function SlotHoles(slot: Option<string>): seq<string> {
    if slot.Some? then ExtractPlaceholders(slot.value) else []
  }

  /** Placeholders that end up in the emitted template without ever being checked: those of a scoped
      container's name and of the frame hops. */
  ghost predicate UncheckedHole(el: Element, name: string) {
    match ResolveLocator(el)
    case None => false
    case Some(loc) =>
      || (loc.strategy == Scoped && loc.container.Some? && name in ExtractPlaceholders(loc.container.value.name))
      || exists hop :: hop in loc.framePath && HopXPath(hop).Ok?
                       && name in ExtractPlaceholders("xpath=" + HopXPath(hop).value)
  }

  lemma {:induction false} FrameNames(hops: seq<Locator>, name: string)
    requires RenderFrames(hops, true).Ok?
    ensures (exists l :: l in RenderFrames(hops, true).value && name in LitNames(l)) <==>
            exists hop :: hop in hops && HopXPath(hop).Ok?
                          && name in ExtractPlaceholders("xpath=" + HopXPath(hop).value)
  {
    if hops != [] {
      FrameNames(hops[1..], name);
      var lit := MakeLit("xpath=" + HopXPath(hops[0]).value, true);
      assert RenderFrames(hops, true).value == [lit] + RenderFrames(hops[1..], true).value;
      ghost var all, rest := RenderFrames(hops, true).value, RenderFrames(hops[1..], true).value;
      assert forall l :: l in all <==> l == lit || l in rest;
      assert forall hop :: hop in hops <==> hop == hops[0] || hop in hops[1..];
      if l :| l in all && name in LitNames(l) {
        assert l == lit || l in rest;
      }
      if name in LitNames(lit) {
        assert lit in all;
      }
    }
  }

  lemma {:induction false} StaticFrames(hops: seq<Locator>)
    requires RenderFrames(hops, false).Ok?
    ensures forall l :: l in RenderFrames(hops, false).value ==> l.Quoted?
  {
    if hops != [] {
      StaticFrames(hops[1..]);
    }
  }

  /** A static element's locator refers to no name at all. */
  lemma StaticLocatorIsClosed(el: Element, name: string)
    requires !IsDynamic(el) && DeriveLocator(el).Ok?
    ensures !RefersTo(DeriveLocator(el).value, name)
  {
    StaticFrames(ResolveLocator(el).value.framePath);
  }

  lemma RoleStepNames(role: string, slot: Option<string>, exact: bool)
    ensures CallNames(RoleStep(role, slot, exact, true)) == SlotHoles(slot)
  {
    assert Pieces("") == [];
  }

  lemma RenderedCallNames(loc: Locator, name: string)
    requires RenderCalls(loc, true).Ok?
    ensures (exists c :: c in RenderCalls(loc, true).value && name in CallNames(c)) <==>
            || name in SlotHoles(match loc.strategy
                                 case TestId | Label | Placeholder | ByText => loc.value
                                 case RoleName | Scoped => loc.name
                                 case _ => loc.xpath)
            || (loc.strategy == Scoped && loc.container.Some?
                && name in ExtractPlaceholders(loc.container.value.name))
  {
    var calls := RenderCalls(loc, true).value;
    if loc.strategy == Scoped {
      var outer := RoleStep(loc.container.value.role, Some(loc.container.value.name), false, true);
      var inner := RoleStep(loc.role.value, loc.name, true, true);
      RoleStepNames(loc.container.value.role, Some(loc.container.value.name), false);
      RoleStepNames(loc.role.value, loc.name, true);
      assert calls == [outer, inner];
      assert outer in calls && inner in calls;
    } else {
      if loc.strategy == RoleName {
        RoleStepNames(loc.role.value, loc.name, true);
      }
      assert |calls| == 1;
      assert calls[0] in calls;
    }
  }

  /** A dynamic element's locator refers to exactly the placeholders of the checked slot and of the
      unchecked ones. */
  lemma DynamicLocatorNames(el: Element, name: string)
    requires IsDynamic(el) && DeriveLocator(el).Ok?
    ensures RefersTo(DeriveLocator(el).value, name) <==>
            name in SlotHoles(CheckedSlot(el)) || UncheckedHole(el, name)
  {
    var loc := ResolveLocator(el).value;
    FrameNames(loc.framePath, name);
    RenderedCallNames(loc, name);
  }
}
