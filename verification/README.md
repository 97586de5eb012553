# Vindicate: verified model

A Dafny model of the algorithms and protocols inside Vindicate, and proofs about them. `dafny verify dfyconfig.toml`
verifies the project.

Four groups of code are modelled.

* **The code generator as a small compiler.** `CodegenChecker` is its type checker, `CodegenEmit` its back end on
  syntax trees, `CodegenResolution` says when the output resolves, `CodegenSoundness` and `CodegenTheorem` prove exactly
  when the output of an accepted schema does, and `CodegenLimits` gives an accepted input for each rule the checker
  lacks, and a host that meets every hypothesis. `LocatorEscaping` and `SpecText` treat the emitted text itself:
  escaped literals are undone by the evaluators of TypeScript and XPath, and appending to a spec file equals building
  it at once. `EditDistance` is the suggestion behind error messages.
* **Protocols, as step relations.** Code between two awaits is one atomic step; a run is any sequence of enabled steps.
  `AsyncLock`, `EventReplay` with `SseStream` and their composition `EventTransport` (with the JSON
  text in `EventJson`), `CircuitBreaker`, `SingleFlight` and `Governor`. Each comes with a class
  that has the source's fields and whose methods are proved to take exactly the steps.
* **Algorithms with a budget or a cache.** `SnapshotText` (binary search for the largest prefix), `RunReport` and
  `ResponseBudget` (failed-first sort and trimming, on `Json` values with the length of their printed text),
  `TestFileIndex` (modification-time cache).
* **Counting and reachability.** `TestResults` and `Metrics` (result tree, coverage, health score) and `ContentGraph`
  (worklist and graph validation).

`Option`, `Text`, `Sequences` and `Arithmetic` hold shared vocabulary.

Conventions. A loop of the source is a method with that loop, proved against a function or a predicate; the theorems are
lemmas about those. An object the source updates in place is a class. JavaScript strings are sequences of characters,
object records with insertion order are sequences of members. What the model does not look into is a parameter and the
theorems hold for every value of it: lower-, upper- and camel-casing, the TypeScript compiler's judgement of an
expression (whether it is one, which names it mentions, which keys it reads off `expected`, what it amounts to in an
argument list), the checker's patterns for expected keys, secrets and literals, JSON parsing and printing, clocks,
samples, file contents, slugs and name matching.

Where the code accepts what it should not, or differs from its comments, the model follows the code, names the input
and states exactly when it matters:

* `ClassNamesDistinctIff`, `NothingHidesIff`: the checker compares derived field names with each other only, not with
  the emitted `path` field or the members of the base class (`PathIsDeclaredTwice`, `InheritedMemberIsHidden`), and
  class names with nothing (`ClassRepeatsAnImport`).
* `LocateResolvesIff`: reference arguments are never searched for `expected` (`RefArgMentionsExpected`).
* `AssertionResolvesIff`, `SpecSoundIff`: `expected` is recognised by a pattern, not as a name
  (`ParameterHidesExpected`, `BracketsAreNotImported`), and parameters may be called `expect`
  (`ParameterHidesExpect`).
* `AuthSoundIff`: the setup declares its fixtures next to its parameter and the imported classes
  (`SetupRepeatsItsParameter`, `SetupHidesItsClass`).
* `RawLiteralIff`: most single-quoted literals are printed without escaping (`ApostropheBreaksTitle`).
* `ActionResolvesIff`: the base class of panels has no `waitForPageLoad` (`PanelCannotWait`).
* `ReadsBackIff`: an empty argument, one with a top-level comma, or one that closes a parenthesis it did not open
  changes what the printed list says (`EmptyArgumentVanishes`).
* `SpecSoundIff`: distinct class names are not enough for distinct fixture names (`CaseOnlyClassesClash`).
* `ImportResolvesIff`: the spec camel-cases only dashes, the exporter dashes and underscores.
* `MembersCloseIff`: placeholders in a container's name and in frame hops are not checked.
* `RejectSkipsHoldBandIff`: leaving the reject state ignores the margin that the warning state applies on exit.
* `ListenersHearAllIff`: a listener that throws cuts off the ones behind it (`CutOffListenerHearsARepeat`).
* `TrimRunTests`: when not even zero tests fit, the scan ends at -1 and the slice that follows takes the last test; the
  payload is nevertheless returned unchanged.
* `ScoresInRangeIff`: a report dated in the future pushes the health score above 100.

Other boundaries are ones the program already keeps away from; the lemmas show why it must:

* `EmptyBufferLosesEvents`: the event buffer bound is positive (config.ts:63).
* `AppendToBuiltIff`, `AppendTwiceIff`: lists of cases are not empty (schema.ts:236, 268).
* `ThrowServesIff`: a pass of the refresh loop reports the failures of its own work and returns; only an error out of an
  event emitter or the logger would escape it.

## Model

| member | source | states |
|---|---|---|
| `CodegenTheorem.CodegenSound` | apps/runtime-mcp/src/codegen/validate-codegen.ts:1109-1116 | Soundness: for every parsed schema the checker accepts, generation never throws, and the output resolves exactly under the rules the checker lacks: the classes of the feature resolve if and only if its pages keep the page rules (free class name and path field, nothing inherited hidden, arguments whose names are in scope, expect not hidden, no panel waiting for a load); their locators are closed if and only if the placeholders in the slots the checker skips are declared; the spec resolves if and only if the spec rules hold; and the auth setup resolves if and only if its calls do and the fixtures it declares clash with none of its names |
| `CodegenChecker.ValidateFullSchema` | apps/runtime-mcp/src/codegen/validate-codegen.ts:1058-1116 | The checker, all its passes included, reports exactly the kinds of rule that are broken somewhere in the schema, so it is silent if and only if the schema is well typed |
| `CodegenChecker.CollectPageErrors` | apps/runtime-mcp/src/codegen/validate-codegen.ts:382-651 | The structural walk over one page reports exactly the broken page rules: duplicate names and refs, colliding field names, element, step and verify rules, secrets in step values and unusable URL patterns |
| `CodegenChecker.CollectElementErrors` | apps/runtime-mcp/src/codegen/validate-codegen.ts:278-328 | An element is reported exactly when its locator cannot be rendered, its container is ignored, or its dynamic parameters differ from the placeholders of the checked slot |
| `CodegenChecker.CollectRefArgsErrors` | apps/runtime-mcp/src/codegen/validate-codegen.ts:330-380 | A use of an element is reported exactly for a wrong number of arguments or, on a dynamic element, an invalid argument expression |
| `CodegenChecker.CollectActionErrors` | apps/runtime-mcp/src/codegen/validate-codegen.ts:211-246 | An action is reported exactly for an unknown element, bad reference arguments, a value and parameter that do not fit the step, a secret typed in, or an unusable URL pattern |
| `CodegenChecker.CollectPageExprErrors` | apps/runtime-mcp/src/codegen/validate-codegen.ts:761-866 | Expressions of a page are reported exactly when they name an expected key the schema lacks or are test data written in place |
| `CodegenChecker.DetectInlineTestData` | apps/runtime-mcp/src/codegen/validate-codegen.ts:656-730 | An inline literal is reported exactly when there is no expected data to put it in, or when that data already holds it |
| `CodegenChecker.CollectBodyCallErrors` | apps/runtime-mcp/src/codegen/validate-codegen.ts:879-958 | A spec call is reported exactly for an unknown fixture, an unknown method, a wrong argument count, an invalid argument or a quoted environment variable |
| `CodegenChecker.CollectOwnedByErrors` | apps/runtime-mcp/src/codegen/validate-codegen.ts:183-209 | Ownership is reported exactly when the last page with a called fixture name belongs to another feature |
| `CodegenChecker.CollectWaitForResponseErrors` | apps/runtime-mcp/src/codegen/validate-codegen.ts:967-1040 | A wait for a response is reported exactly when no observed endpoint contains its pattern, or nothing was observed at all |
| `CodegenChecker.CollectShapeErrors` | apps/runtime-mcp/src/codegen/validate-codegen.ts:732-759 | The expected record is reported exactly when it is empty or two of its texts are equal |
| `CodegenChecker.CollectRepeats` | apps/runtime-mcp/src/codegen/validate-codegen.ts:382-651 | The seen-set loop reports a duplicate exactly when some name occurs at two positions |
| `CodegenResolution.ReadsBackIff` | apps/runtime-mcp/src/codegen/spec-writer.ts:14-27 | The printed argument list is read back as the arguments it was printed from if and only if each amounts to itself where it stands: not empty, not split by a comma, not closing the list's own parenthesis |
| `CodegenSoundness.TypedPageBuilds` | apps/runtime-mcp/src/codegen/page-object.ts:193-267 | An accepted page never makes the page-object back end throw, and each member carries its own element's derived name |
| `CodegenSoundness.TypedPageResolvesIff` | apps/runtime-mcp/src/codegen/page-object.ts:71-267 | The class of an accepted page resolves, in its accesses and their arguments, its values, the names and expected keys of its expressions, its imports, its base members and the distinctness of its own name and all others, if and only if the page keeps the page rules |
| `CodegenSoundness.LocateResolvesIff` | apps/runtime-mcp/src/codegen/page-object.ts:25-37 | An accepted use of an element is emitted as an access to a declared member with exactly its parameters, and resolves if and only if its arguments are sound |
| `CodegenSoundness.ClassNamesDistinctIff` | apps/runtime-mcp/src/codegen/page-object.ts:193-267 | The class takes no name its file imports or returns, and its fields, path field and methods have distinct names, if and only if the page's class name is free and it is a panel or no element derives the name path |
| `CodegenSoundness.NothingHidesIff` | apps/runtime-mcp/content/templates/ui/pages/BasePage.ts:3-54 | Nothing in an emitted class hides a member of its base class if and only if no element derives the name of one |
| `CodegenSoundness.ActionResolvesIff` | apps/runtime-mcp/src/codegen/page-object.ts:71-125 | The statements of an accepted action resolve if and only if its reference arguments are sound and it does not make a panel wait for a load |
| `CodegenSoundness.AssertionResolvesIff` | apps/runtime-mcp/src/codegen/page-object.ts:127-138 | The statements of an accepted assertion resolve if and only if its reference arguments are sound, its argument stays inside the call, the names of that resolve, and no parameter hides expect |
| `CodegenSoundness.SeenReadsResolveIff` | apps/runtime-mcp/src/codegen/validate-codegen.ts:794-866 | Where the pattern sees every use and key of expected in an accepted assertion, its argument resolves if and only if its other names are in scope and no parameter hides expected |
| `CodegenSoundness.MembersCloseIff` | apps/runtime-mcp/src/codegen/validate-codegen.ts:255-328 | The members of an accepted page use only declared parameters if and only if the placeholders outside the checked slot are declared |
| `CodegenTheorem.ClassesSoundIff` | apps/runtime-mcp/src/codegen/generator.ts:177-238 | The classes of the feature's own pages are generated, and resolve if and only if each page keeps the page rules |
| `CodegenTheorem.SpecSoundIff` | apps/runtime-mcp/src/codegen/spec-writer.ts:29-69 | The generated spec resolves if and only if its import keeps its name and every call, before-each calls included, is of exactly one page of the feature that has the method with the arity, with arguments that are each one argument whose names are fixtures of the test or imported, expected meaning the test data |
| `CodegenTheorem.AuthSoundIff` | apps/runtime-mcp/src/codegen/spec-writer.ts:71-121 | The auth setup of an accepted schema never throws, and resolves if and only if its calls do and, for each called fixture, the fixture is not page and the first page with it is of the feature and has a class name that is neither page, nor setup, nor a called fixture, nor expected where that is imported |
| `CodegenTheorem.SeenCallReadsResolveIff` | apps/runtime-mcp/src/codegen/validate-codegen.ts:794-866 | Where the pattern sees every use and key of expected in an argument of an accepted call, it resolves if and only if its other names are in scope and no fixture hides expected |
| `CodegenTheorem.HasMethodIff` | apps/runtime-mcp/src/codegen/validate-codegen.ts:868-877 | The class of an accepted page has a method of a given name and arity if and only if the checker's table of the page says so |
| `CodegenTheorem.DistinctFixturesSuffice` | apps/runtime-mcp/src/codegen/validate-codegen.ts:183-209 | With distinct fixture names every accepted call is of exactly one page, the one the checker looked at |
| `CodegenTheorem.ImportResolvesIff` | apps/runtime-mcp/src/codegen/spec-writer.ts:31-34 | The spec imports test data under the exported name if and only if no underscore of the feature name is camel-cased away by the exporter |
| `CodegenLimits.PathIsDeclaredTwice` | apps/runtime-mcp/src/codegen/page-object.ts:226-253 | Input: an accepted element with the ref path makes the class declare path twice |
| `CodegenLimits.InheritedMemberIsHidden` | apps/runtime-mcp/src/codegen/page-object.ts:193-267 | Input: an accepted element named page yields a member that hides the inherited one |
| `CodegenLimits.PanelCannotWait` | apps/runtime-mcp/src/codegen/page-object.ts:71-80 | Input: an accepted panel step that waits for a page load calls a member its base class does not have |
| `CodegenLimits.AnyRefArgIsAccepted` | apps/runtime-mcp/src/codegen/validate-codegen.ts:330-380 | Every valid expression is accepted as a reference argument of the page given, whose class resolves if and only if it is one argument that mentions nothing but the class and its base |
| `CodegenLimits.RefArgMentionsExpected` | apps/runtime-mcp/src/codegen/validate-codegen.ts:794-866 | Input: a reference argument expected.id is accepted and emitted in a class that does not import expected |
| `CodegenLimits.AnySpecArgIsAccepted` | apps/runtime-mcp/src/codegen/validate-codegen.ts:879-958 | Every unremarkable expression is accepted as an argument of the spec call given, and the spec resolves if and only if it is one argument that mentions nothing but the fixture and the imported test function |
| `CodegenLimits.EmptyArgumentVanishes` | apps/runtime-mcp/src/codegen/validate-codegen.ts:879-958 | Input: an empty argument counts as one in the checker and as none in the printed call |
| `CodegenLimits.AnyAssertedArgIsAccepted` | apps/runtime-mcp/src/codegen/validate-codegen.ts:794-866 | Every expression without unknown keys and inline data is accepted in the assertion given, whatever the parameter is called, and the class resolves if and only if the parameter is not expect, the expression stays inside its parentheses, and its names resolve with expected imported exactly where the pattern matches |
| `CodegenLimits.ParameterHidesExpected` | apps/runtime-mcp/src/codegen/validate-codegen.ts:794-866 | Input: a verify method with a parameter expected that asserts expected.id is accepted and means the parameter |
| `CodegenLimits.BracketsAreNotImported` | apps/runtime-mcp/src/codegen/expected-ref.ts:3-28 | Input: a use of expected that the pattern does not match is accepted in a class that does not import it |
| `CodegenLimits.ParameterHidesExpect` | apps/runtime-mcp/src/codegen/page-object.ts:127-138 | Input: a verify method with a parameter expect is accepted and calls its parameter |
| `CodegenLimits.AnyClassNameIsAccepted` | apps/runtime-mcp/src/codegen/page-object.ts:193-267 | Every class name is accepted on the page given, whose class resolves if and only if the name is neither BasePage nor Promise, and whose setup resolves if and only if the fixture is not page and the name is not page, setup or the fixture itself |
| `CodegenLimits.ClassRepeatsAnImport` | apps/runtime-mcp/src/codegen/page-object.ts:233-253 | Input: a page called BasePage is accepted and declares the class its file imports |
| `CodegenLimits.SetupHidesItsClass` | apps/runtime-mcp/src/codegen/spec-writer.ts:100-115 | Input: a page called loginPage is accepted and the setup instantiates the constant it is declaring |
| `CodegenLimits.SetupRepeatsItsParameter` | apps/runtime-mcp/src/codegen/spec-writer.ts:100-115 | Input: a page called Page is accepted and the setup declares its parameter page again |
| `CodegenLimits.ApostropheBreaksTitle` | apps/runtime-mcp/src/codegen/spec-writer.ts:14-27 | Input: an accepted title with an apostrophe is printed as a literal that does not evaluate to it |
| `CodegenLimits.HypothesesAreMet` | apps/runtime-mcp/src/codegen/validate-codegen.ts:1058-1116 | One host meets all hypotheses of the soundness theorem and of the inputs at once |
| `CodegenLimits.CaseOnlyClassesClash` | apps/runtime-mcp/src/codegen/validate-codegen.ts:183-209 | Input: two distinct class names with one fixture name pass the checker, and the generated spec calls a method that does not exist |
| `CodegenLocator.DeduplicateFieldNames` | apps/runtime-mcp/src/codegen/locator-derive.ts:291-304 | The counting loop over two maps gives every element its name, numbered from the second use on |
| `CodegenLocator.DeduplicationIsIdleIff` | apps/runtime-mcp/src/codegen/locator-derive.ts:291-304 | With distinct refs, every element keeps its derived name and no number is added if and only if the derived names are distinct |
| `CodegenLocator.StaticLocatorIsClosed` | apps/runtime-mcp/src/codegen/locator-derive.ts:192-250 | The locator of an element without dynamic parameters refers to no name at all |
| `CodegenLocator.DynamicLocatorNames` | apps/runtime-mcp/src/codegen/locator-derive.ts:192-250 | The locator of a dynamic element refers to exactly the placeholders of the checked slot and of the slots the checker skips |
| `LocatorEscaping.HopRoundTripIff` | apps/runtime-mcp/src/codegen/locator-derive.ts:150-171 | Evaluating the emitted single-quoted literal (section 12.9.4 of ECMA-262) and then its XPath string (sections 3.7 and 4.2 of XPath 1.0) gives back attribute and value if and only if the value has no line break |
| `LocatorEscaping.TsQuoteRoundTripIff` | apps/runtime-mcp/src/codegen/locator-derive.ts:116-121 | A static literal evaluates back to its value if and only if the value has no line break; otherwise it is not a literal |
| `LocatorEscaping.RawLiteralIff` | apps/runtime-mcp/src/codegen/spec-writer.ts:14-27 | The literals that are never escaped (titles, suites, paths, keys, file names) evaluate to their text if and only if it has no single quote, backslash or line break |
| `LocatorEscaping.XPathRoundTrip` | apps/runtime-mcp/src/codegen/locator-derive.ts:137-142 | Every value, whatever mix of quotes it has, is what its XPath literal or concat call evaluates to |
| `SpecText.AppendToBuiltIff` | apps/runtime-mcp/src/codegen/spec-writer.ts:29-142 | Appending to a freshly built spec never fails, and gives the spec built from all the cases if and only if neither list of cases is empty, which validation (schema.ts:236, 268) makes sure of |
| `SpecText.AppendTwiceIff` | apps/runtime-mcp/src/codegen/spec-writer.ts:123-142 | On any file that can be appended to, appending one list and then another equals appending their concatenation if and only if both are non-empty |
| `SpecText.IncrementalEqualsBatch` | apps/runtime-mcp/src/codegen/spec-writer.ts:29-142 | However the cases are cut into non-empty batches, growing the file never fails and ends at the text of a single build |
| `SpecText.CloseIsUnique` | apps/runtime-mcp/src/codegen/spec-writer.ts:125-126 | The pattern for the closing of the describe block matches at most one position of any text |
| `SpecText.BuildShape` | apps/runtime-mcp/src/codegen/spec-writer.ts:53-68 | A built spec is a front that does not depend on the cases, the printed cases, and the closing |
| `EditDistance.Levenshtein` | apps/runtime-mcp/src/codegen/validation.ts:23-38 | The table of the nested loops ends with the distance of the recurrence in its last cell |
| `EditDistance.LevIsShortestScript` | apps/runtime-mcp/src/codegen/validation.ts:23-38 | The distance is the length of a shortest script of insertions, deletions and substitutions: one such script exists and none is shorter |
| `EditDistance.LevZeroIffEqual` | apps/runtime-mcp/src/codegen/validation.ts:23-38 | The distance is zero exactly on equal strings |
| `EditDistance.LevSymmetric` | apps/runtime-mcp/src/codegen/validation.ts:23-38 | The distance is symmetric |
| `EditDistance.LevTriangle` | apps/runtime-mcp/src/codegen/validation.ts:23-38 | The distance obeys the triangle inequality |
| `EditDistance.LevBounds` | apps/runtime-mcp/src/codegen/validation.ts:23-38 | The distance lies between the difference of the lengths and the longer length |
| `EditDistance.Suggest` | apps/runtime-mcp/src/codegen/validation.ts:40-61 | The first candidate related by prefix wins; without one, the first candidate of least distance within half the input length is suggested, and nothing if and only if none is that close |
| `AsyncLock.MutualExclusion` | apps/runtime-mcp/src/shared/async-lock.ts:8-25 | In every interleaving at most one call per key is inside fn |
| `AsyncLock.FirstComeFirstServed` | apps/runtime-mcp/src/shared/async-lock.ts:8-25 | Calls on a key enter fn in registration order, each only after all earlier ones on its key have left, throwing ones included |
| `AsyncLock.TailsAreLive` | apps/runtime-mcp/src/shared/async-lock.ts:14-23 | The map holds a key exactly while that key has an unfinished call |
| `AsyncLock.Progress` | apps/runtime-mcp/src/shared/async-lock.ts:8-25 | While a call is unfinished, some call on its key can step |
| `AsyncLock.Drain` | apps/runtime-mcp/src/shared/async-lock.ts:8-25 | From every reachable state, entering and leaving alone finish every call and empty the map in exactly the steps still owed |
| `AsyncLock.ResolvedIffEarlierDone` | apps/runtime-mcp/src/shared/async-lock.ts:9-15 | The promise a call awaits has resolved exactly when every earlier call on its key has finished |
| `AsyncLock.Lock.constructor` | apps/runtime-worker/src/shared/async-lock.ts:6 | A new lock has no tails |
| `AsyncLock.Lock.BeginRun` | apps/runtime-worker/src/shared/async-lock.ts:8-15 | Registration reads the previous tail and installs the new one, as the protocol step says |
| `AsyncLock.Lock.EnterFn` | apps/runtime-worker/src/shared/async-lock.ts:15-17 | Entering fn changes nothing but the phase of the call |
| `AsyncLock.Lock.Finally` | apps/runtime-worker/src/shared/async-lock.ts:18-23 | Leaving releases the gate and removes the tail if it is still the call's own |
| `EventReplay.ReplayIsLossless` | apps/runtime-worker/src/health/events.routes.ts:34-67 | A client never sent resync_required has received, across all its connections, a prefix of everything published, in order, nothing lost and nothing twice; connected, what it read and what is on the wire are the whole history |
| `EventReplay.BufferIsNewestHistory` | apps/runtime-worker/src/core/events/event-bus.ts:18-31 | Sequence numbers strictly increase under any clock, and the buffer is the newest stretch of the history the bound allows |
| `EventReplay.ReplayIsTheRest` | apps/runtime-worker/src/health/events.routes.ts:34-63 | Without a reported gap, the buffered events after the last one seen are exactly the history the client is missing |
| `EventReplay.UnseenDropLeavesGap` | apps/runtime-worker/src/health/events.routes.ts:34-35 | An event dropped from the buffer and not seen by the client always makes the gap test fire |
| `EventReplay.ResyncRestartsTheLog` | apps/runtime-worker/src/health/events.routes.ts:45-58 | After a resync message the same guarantee holds from that message on |
| `EventReplay.EmptyBufferLosesEvents` | apps/runtime-worker/src/core/events/event-bus.ts:26-28 | Why the configuration asks for a positive bound (config.ts:63): with a bound of zero no gap is ever reported and events are lost |
| `EventReplay.EventBus.PublishEvent` | apps/runtime-worker/src/core/events/event-bus.ts:18-31 | Publishing appends the numbered event, keeps the newest of the buffer and hands the event to every subscriber |
| `EventReplay.EventBus.Subscribe` | apps/runtime-worker/src/core/events/event-bus.ts:33-38 | A subscriber starts with nothing and the bus is otherwise unchanged |
| `EventReplay.EventBus.Unsubscribe` | apps/runtime-worker/src/core/events/event-bus.ts:33-38 | Unsubscribing removes that subscriber alone |
| `EventReplay.EventBus.GetBuffered` | apps/runtime-worker/src/core/events/event-bus.ts:40-42 | The buffered events with a greater number, in order |
| `EventReplay.EventBus.GetOldestBufferedSeq` | apps/runtime-worker/src/core/events/event-bus.ts:48-50 | The number of the first buffered event, if any |
| `EventReplay.EventBus.Connect` | apps/runtime-worker/src/health/events.routes.ts:22-67 | The route refuses exactly a since that is not a finite non-negative number, fractions included, and otherwise sends a resync message or the replay, then subscribes; other subscribers see exactly what the bus published |
| `SseStream.ParseSseStream` | apps/runtime-mcp/src/shared/sse.ts:5-50 | The events do not depend on how the text is cut into chunks: they are the events of the whole text split on blank lines |
| `SseStream.PrintThenParse` | apps/runtime-worker/src/health/events.routes.ts:9-77 | Parsing exactly undoes the frames of sseWrite, with heartbeat comments anywhere between them |
| `SseStream.CutStreamIsPrefix` | apps/runtime-mcp/src/shared/sse.ts:13-46 | A stream cut anywhere yields a prefix of the messages sent and never a corrupted one |
| `SseStream.SplitIncremental` | apps/runtime-mcp/src/shared/sse.ts:22-24 | Text appended later only affects the part that is kept in the buffer |
| `SseStream.Flush` | apps/runtime-mcp/src/shared/sse.ts:36-45 | At the end of the stream the rest of the buffer yields its event, white space none |
| `EventTransport.TextRefinesEvents` | apps/runtime-worker/src/health/events.routes.ts:22-77 | The protocol over text refines the protocol over events: clients that know nothing but the text of their connections, in any chunks, with heartbeats anywhere, each connection broken off at any character, reach only states the event protocol reaches, if JSON undoes the events published in the run |
| `EventTransport.TextIsLossless` | apps/runtime-mcp/src/shared/sse.ts:5-50 | Over any number of such connections a client never sent resync_required has parsed a prefix of everything published, in order, nothing lost, nothing twice, nothing garbled; otherwise the same holds from its latest resync message on |
| `EventTransport.FullTextIsEverything` | apps/runtime-mcp/src/shared/sse.ts:5-50 | A connection read to its end leaves the client with everything published since its latest resync message |
| `EventTransport.ReadingIsReceiving` | apps/runtime-mcp/src/shared/sse.ts:13-46 | Wherever the text breaks off, what the parser makes of it is what some number of receive steps delivers |
| `EventTransport.ReadConnection` | apps/runtime-mcp/src/shared/sse.ts:5-50 | Parsing one connection yields a beginning of the history the client is missing, and all of it when the text was not cut |
| `EventJson.JsonUndoes` | apps/runtime-worker/src/health/events.routes.ts:9-11 | A JSON text of events meets what the transport asks for, for all data and all whole resync numbers at once: it has no line break, it parses back, and no part of it cut off parses |
| `EventJson.TextNamesEvent` | apps/runtime-worker/src/health/events.routes.ts:9-11 | No event's JSON text begins another's |
| `EventJson.JsonIsLossless` | apps/runtime-worker/src/health/events.routes.ts:22-77 | With this text, the end-to-end guarantee holds of every run without a hypothesis: a client has parsed a prefix of the history since its latest resync message, or of all of it |
| `CircuitBreaker.StreaksAreTrailing` | apps/runtime-mcp/src/worker/worker-client.ts:570-610 | In every interleaving the slow streak is the number of trailing slow completions; while degraded, the fast streak is the number of trailing fast ones, short of recovery |
| `CircuitBreaker.LeavingDegraded` | apps/runtime-mcp/src/worker/worker-client.ts:586-599 | Degraded becomes healthy only by a successful probe or by the configured number of consecutive fast completions |
| `CircuitBreaker.EnteringDegraded` | apps/runtime-mcp/src/worker/worker-client.ts:583-590 | The circuit becomes degraded exactly by a measured completion that makes two trailing slow ones |
| `CircuitBreaker.AtMostTwoAttempts` | apps/runtime-mcp/src/worker/worker-client.ts:602-623 | The wrapped call runs at most twice, the second time only after a connection error, never after a timeout or an abort |
| `CircuitBreaker.SecondAttemptFollowsProbe` | apps/runtime-mcp/src/worker/worker-client.ts:602-607 | A second run starts only when a probe of the same call has just succeeded, which leaves the circuit healthy |
| `CircuitBreaker.BackoffValues` | apps/runtime-mcp/src/worker/worker-client.ts:642-644 | The sleeps are h, 2h, 4h and then 8h for ever |
| `CircuitBreaker.ProbeBound` | apps/runtime-mcp/src/worker/worker-client.ts:625-648 | With probe interval h and timeout T above 7h the loop makes at most 3 + ceil((T - 7h) / 8h) probes under any clock that advances by at least each sleep |
| `CircuitBreaker.ProbeBoundIsTight` | apps/runtime-mcp/src/worker/worker-client.ts:625-648 | The bound is reached when probes fail at once and sleeps are exact |
| `CircuitBreaker.FailuresEndUnavailable` | apps/runtime-mcp/src/worker/worker-client.ts:625-648 | A recovery loop whose probes all fail ends with the unavailable error |
| `CircuitBreaker.WorkerClient.OnCompleted` | apps/runtime-mcp/src/worker/worker-client.ts:580-601 | The fields after a completed attempt are those of the protocol step |
| `CircuitBreaker.WorkerClient.OnFailed` | apps/runtime-mcp/src/worker/worker-client.ts:602-623 | A failed attempt is retried exactly for a connection error, which also marks the worker down |
| `CircuitBreaker.WorkerClient.WaitForRecovery` | apps/runtime-mcp/src/worker/worker-client.ts:625-648 | The loop ends healthy with a fast streak of zero, or by an error that leaves the breaker as it was |
| `SingleFlight.RefreshIsSingleFlight` | apps/vscode-extension/src/extension/filesystem/FileWatcherService.ts:129-154 | In every run without stop passes never overlap and are no more than the requests, and the dirty flag is down exactly when every request has been followed by a later pass |
| `SingleFlight.RefreshLosesNothing` | apps/vscode-extension/src/extension/filesystem/FileWatcherService.ts:129-154 | When no pass throws, a loop at rest has followed every request by a pass that started after it |
| `SingleFlight.RefreshSettles` | apps/vscode-extension/src/extension/filesystem/FileWatcherService.ts:142-150 | Two passes that return bring any run to rest with every request served |
| `SingleFlight.ThrowServesIff` | apps/vscode-extension/src/extension/filesystem/FileWatcherService.ts:142-150 | An error that escapes a pass brings the loop to rest with every request served if and only if none was queued during the pass |
| `SingleFlight.NextRequestServesAll` | apps/vscode-extension/src/extension/filesystem/FileWatcherService.ts:129-150 | At rest, the next request serves every earlier one too, so a request forgotten after an escaped error is not lost for good |
| `SingleFlight.ServicesFollowTheLatestChange` | apps/vscode-extension/src/extension/extension.ts:98-128 | Whenever the background loop is at rest, pinging and watching match the latest visibility and folder, whether refreshes returned or threw |
| `SingleFlight.FileWatcherService.Refresh` | apps/vscode-extension/src/extension/filesystem/FileWatcherService.ts:129-145 | A call queues a pass and starts it if none is in flight |
| `SingleFlight.FileWatcherService.PassEnds` | apps/vscode-extension/src/extension/filesystem/FileWatcherService.ts:144-150 | The end of a pass starts another if one is queued, and otherwise or on a throw clears the in-flight flag |
| `SingleFlight.BackgroundSync.ApplyChange` | apps/vscode-extension/src/extension/extension.ts:98-133 | A change is taken up at once or queued behind the refresh in flight |
| `SingleFlight.BackgroundSync.RefreshEnds` | apps/vscode-extension/src/extension/extension.ts:103-127 | After a refresh, returned or thrown, a queued change is taken up and otherwise the loop ends |
| `SnapshotText.FormatSnapshot` | apps/runtime-mcp/src/mcp/tools/browser-read-tool.ts:327-398 | The text is the full one if it fits; otherwise the largest element prefix whose text with the notice fits; it fits exactly when the full or the zero-element form does; and the fallback after the search is unreachable |
| `SnapshotText.LengthStrictlyIncreases` | apps/runtime-mcp/src/mcp/tools/browser-read-tool.ts:356-385 | Each further element makes the truncated text strictly longer, the digits of the shown count included |
| `SnapshotText.NoticeCosts` | apps/runtime-mcp/src/mcp/tools/browser-read-tool.ts:389-393 | Showing every element with the notice is longer than the full text, which is why the fallback is dead |
| `RunReport.StableSortIsUnique` | apps/runtime-mcp/src/mcp/tools/test-tool.ts:142-148 | The failed-first sort has one possible result: problems, then skips, then passes, each in run order, losing and inventing nothing |
| `RunReport.SortIsStable` | apps/runtime-mcp/src/mcp/tools/test-tool.ts:148-195 | Sorting by priority is ordered and keeps the order of equals |
| `RunReport.CountsAddUp` | apps/runtime-mcp/src/mcp/tools/test-tool.ts:150-153 | Passed, failed (timed out included), skipped and interrupted cases add up to the total |
| `RunReport.OutcomePassesIff` | apps/runtime-mcp/src/mcp/tools/test-tool.ts:154 | A run passes exactly when it ran something and every case passed |
| `RunReport.Collector.WalkSuites` | apps/runtime-mcp/src/mcp/tools/test-tool.ts:106-140 | The walk pushes one case per test with a result, suites in order, a suite's own specs before its children |
| `RunReport.BuildEntries` | apps/runtime-mcp/src/mcp/tools/test-tool.ts:353-399 | The entries are those of the cases, and context is inlined for the first failing cases with a readable one, up to the cap |
| `RunReport.ReadableAreFailures` | apps/runtime-mcp/src/mcp/tools/test-tool.ts:404 | Contexts are only read for failures, so the number of failures without inlined context is never negative |
| `ResponseBudget.TrimRunTests` | apps/runtime-mcp/src/mcp/response-budget.ts:80-133 | A payload that fits is untouched; otherwise the largest number of leading tests that fits is kept and the longest prefix of the cut failures that still fits is indexed |
| `ResponseBudget.ApplyRunTestsBudget` | apps/runtime-mcp/src/mcp/response-budget.ts:135-151 | The response fits the cap exactly when the payload or some cut of it, down to no tests, does; then it keeps the largest number of tests that fits and the longest index that fits with them; otherwise it is the payload unchanged |
| `ResponseBudget.RunTests` | apps/runtime-mcp/src/mcp/tools/test-tool.ts:92-432 | From report to response: the shown tests are the first of the sorted cases, as many as fit the cap; no skipped or passed one is shown while a problem is cut; the index names the first cut failures in order, as many as fit; and the response is over the cap only if no cut at all fits, and is then the payload itself |
| `ResponseBudget.AddIndex` | apps/runtime-mcp/src/mcp/response-budget.ts:124-132 | Popping entries from the end finds the longest prefix of the index that fits |
| `ResponseBudget.ScanKept` | apps/runtime-mcp/src/mcp/response-budget.ts:98-110 | The reverse scan finds the largest number of tests that fits, or that none does |
| `ResponseBudget.NoIndexOnUncut` | apps/runtime-mcp/src/mcp/response-budget.ts:96-132 | When nothing fits, adding an index to the uncut payload cannot make it fit, so the payload is returned as it is |
| `ResponseBudget.TrimmedFields` | apps/runtime-mcp/src/mcp/response-budget.ts:60-78 | The trimmed payload shows the first tests, has the right totals and keeps every other field of the payload |
| `ResponseBudget.CutFailuresAreIndexed` | apps/runtime-mcp/src/mcp/response-budget.ts:39-122 | Every cut failure or time-out, and nothing else, is offered to the index, in run order, with its title, file and first error line |
| `ResponseBudget.ProblemsAreShownFirst` | apps/runtime-mcp/src/mcp/tools/test-tool.ts:142-148 | After a stable failed-first sort no passed or skipped test stands before a problem |
| `Json.NewKeyGrows` | apps/runtime-mcp/src/mcp/response-budget.ts:29-34 | A new key always makes the serialised payload longer |
| `Governor.ReentriesAreBounded` | apps/runtime-worker/src/core/governor/resource-governor.ts:28-73 | Over any run of samples, three times the number of re-entries into reject is at most the total upward movement of CPU plus memory |
| `Governor.WarningsAreBounded` | apps/runtime-worker/src/core/governor/resource-governor.ts:28-73 | Moves from normal to warning beyond the first and those after a stay in reject cost five units of upward movement each |
| `Governor.FlappingIsBounded` | apps/runtime-worker/src/core/governor/resource-governor.ts:28-73 | The number of announced changes is linear in the upward movement, for any thresholds |
| `Governor.NextIsMonotone` | apps/runtime-worker/src/core/governor/resource-governor.ts:28-73 | From each state, a higher load never leads to a lower state |
| `Governor.RejectSkipsHoldBandIff` | apps/runtime-worker/src/core/governor/resource-governor.ts:46-62 | Leaving reject ends below where warning would hold exactly when the load is out of the reject band and between the warning limits |
| `Governor.ListenersHearAllIff` | apps/runtime-worker/src/core/governor/resource-governor.ts:136-157 | Whichever listeners throw, a listener is told every state entered, in order and once each, if and only if every emission of the run reaches it |
| `Governor.EmitOnce` | apps/runtime-worker/src/core/governor/resource-governor.ts:136-140 | One emission tells a listener, once, if and only if it is subscribed and nobody before it throws |
| `Governor.ListenersHearNoRepeats` | apps/runtime-worker/src/core/governor/resource-governor.ts:104-157 | A listener that is always reached never hears a state twice in a row, first hears a state other than the one the run started in, and has last heard the current one |
| `Governor.FirstIsAlwaysReached` | apps/runtime-worker/src/core/governor/resource-governor.ts:108-140 | The listener subscribed longest is always reached, whoever throws |
| `Governor.CutOffListenerHearsARepeat` | apps/runtime-worker/src/core/governor/resource-governor.ts:136-157 | Input: when the first of two listeners throws once, the second hears the same state twice in a row |
| `Governor.RunFollowsSamples` | apps/runtime-worker/src/core/governor/resource-governor.ts:142-157 | The state of the governor depends on the successful samples alone |
| `Governor.ResourceGovernor.constructor` | apps/runtime-worker/src/core/governor/resource-governor.ts:93-102 | A new governor is normal and has no listeners |
| `Governor.ResourceGovernor.OnStateChange` | apps/runtime-worker/src/core/governor/resource-governor.ts:108-113 | A listener is added once |
| `Governor.ResourceGovernor.Remove` | apps/runtime-worker/src/core/governor/resource-governor.ts:110-112 | A listener is removed and the others keep their order |
| `Governor.ResourceGovernor.EmitAll` | apps/runtime-worker/src/core/governor/resource-governor.ts:136-140 | Every listener is told, in order, up to and including the first that throws |
| `Governor.ResourceGovernor.Tick` | apps/runtime-worker/src/core/governor/resource-governor.ts:142-157 | A sample moves the state and, if it changed, tells the listeners up to the first that throws; a failed sample changes nothing |
| `TestResults.CountResults` | apps/vscode-extension/src/extension/filesystem/PlaywrightOutputReader.ts:100-240 | Over any suite tree the per-feature counts add up to the totals and each is the count of its own tests, total is passed plus failed, flaky is at most passed, and the failures are exactly the failed results with distinct ids |
| `TestResults.FeaturesAddUp` | apps/vscode-extension/src/extension/filesystem/PlaywrightOutputReader.ts:148-218 | The map of features has distinct keys and its records sum to the totals |
| `TestResults.FeatureCountsItsTests` | apps/vscode-extension/src/extension/filesystem/PlaywrightOutputReader.ts:154-211 | Each feature's record is the count of the tests with its key, and a feature is present exactly when it has a test |
| `TestResults.IdsAreDistinct` | apps/vscode-extension/src/extension/filesystem/PlaywrightOutputReader.ts:199-200 | No two failures share an id, even when feature keys contain dashes and digits |
| `TestResults.FlakyAtMostPassed` | apps/vscode-extension/src/extension/filesystem/PlaywrightOutputReader.ts:170-177 | A test is flaky at most once and only if something passed |
| `TestResults.Counter.Walk` | apps/vscode-extension/src/extension/filesystem/PlaywrightOutputReader.ts:148-218 | The recursive walk updates the counters, the map and the failures as recording its tests in order does |
| `TestResults.Counter.CountTest` | apps/vscode-extension/src/extension/filesystem/PlaywrightOutputReader.ts:154-212 | One test updates the totals, its feature's record and the failures consistently |
| `Metrics.AcceptanceCoverage` | apps/vscode-extension/src/extension/filesystem/AcceptanceCoverageAnalyzer.ts:11-59 | Every criterion of a live feature is either covered or missing, covered means mentioned by a related test, and drift counts unknown ids and stale mappings |
| `Metrics.ScoreInRange` | apps/vscode-extension/src/extension/filesystem/MetricsCalculator.ts:64-96 | With consistent inputs and a last run not in the future the health score lies in 0..100 |
| `Metrics.ScoresInRangeIff` | apps/vscode-extension/src/extension/filesystem/MetricsCalculator.ts:82-96 | For a given age of the last run, all scores are percentages if and only if the age is not negative |
| `Metrics.Refresh` | apps/vscode-extension/src/extension/filesystem/FileWatcherService.ts:164-206 | Whatever specs, tests and report are read, the inputs of the score are consistent, so the score is a percentage unless the report comes from the future |
| `TestFileIndex.CacheAgreesWithNoCache` | apps/vscode-extension/src/extension/filesystem/TestFileIndex.ts:24-73 | After any history of calls, clears and root changes over a disk whose modification times tell its contents apart, a call returns what rebuilding every readable file would |
| `TestFileIndex.CacheIsExactIff` | apps/vscode-extension/src/extension/filesystem/TestFileIndex.ts:32-73 | One call equals a rebuild if and only if every cache entry that is still current agrees with the disk |
| `TestFileIndex.NextCacheHolds` | apps/vscode-extension/src/extension/filesystem/TestFileIndex.ts:40-72 | The cache holds exactly the visited paths of the latest scan |
| `TestFileIndex.SecondCallOpensOnlyUnreadable` | apps/vscode-extension/src/extension/filesystem/TestFileIndex.ts:46-53 | A second call on an unchanged disk opens only files that cannot be read |
| `TestFileIndex.TestFileIndex.Snapshots` | apps/vscode-extension/src/extension/filesystem/TestFileIndex.ts:32-73 | The loop returns and caches what the specification says and opens only files without a current entry |
| `TestFileIndex.TestFileIndex.Clear` | apps/vscode-extension/src/extension/filesystem/TestFileIndex.ts:27-30 | Clearing empties the cache and forgets the root |
| `ContentGraph.ReachableFromEntries` | apps/runtime-mcp/src/content/validate-content-lib.ts:148-168 | The worklist ends, despite duplicates and dangling targets, with exactly the ids at the end of some walk from an entry point |
| `ContentGraph.ValidateGraphStructure` | apps/runtime-mcp/src/content/validate-content-lib.ts:61-102 | The validator reports exactly the broken rules |
| `ContentGraph.AcceptedIffRuns` | apps/runtime-mcp/src/content/validate-content-lib.ts:61-102 | A graph has no errors if and only if every node is reachable and every walk from an entry ends at a defined node that is terminal without edges or has an edge to follow |
| `ContentGraph.NeverStuck` | apps/runtime-mcp/src/content/validate-content-lib.ts:61-102 | From the end of any walk of an accepted graph the workflow is done or can step to a defined node |

## Left out

- Generated text of page objects: comments, the interfaces of a page's types (and clashes with their names), and template literals with backticks or `${`; the soundness theorem is about syntax trees and argument lists, and what the single-quoted literals evaluate to is stated apart (RawLiteralIff).
- Whether names are identifiers at all, and not reserved words, and repeated parameter names of one method: neither the checker nor the model looks at them. Types of expressions and parameters.
- The base classes are those of the scaffold templates; a project that edits them has other inherited names. Members of Object.prototype other than the constructor are not counted as inherited.
- The checker's regular expressions for secrets, globs, literals and environment variables are predicates of the host; matching a URL pattern against an endpoint is text containment.
- Keys inherited from Object.prototype: only the own keys of the `expected` record matter to the model.
- HopRoundTripIff: escapes that the emitter never writes (numeric, hexadecimal, Unicode) are not evaluated; attribute names with `=` are excluded.
- Page-loader updates: an export is added only when the loader does not already contain its name as a substring, so an existing `preauthExpected` suppresses `authExpected`; the model takes the exports as there.
- Writing files: two pages of a feature with one class name write one file. Registration of fixtures in the page configuration, register-page and add-test-cases: file plumbing around the modelled parts.
- Number parsing of the since query, and an event payload with its own `seq` key.
- EventReplay.ReplayIsLossless: the gap test is conservative, because numbers skip; only "no gap reported, nothing lost" holds and is stated.
- EventTransport.TextIsLossless: a client asks for what follows the last number it has parsed, and a connection is read once, to wherever it ends; UTF-8 decoding happens before.
- JSON is a pair of functions; the stream theorems ask of the values actually sent that printing has no line break, that parsing undoes it, and that no proper prefix of the text parses. EventJson shows one such pair; the payload of an event is one string there, and only the escapes for quotes, backslashes and line feeds are written.
- Request throttling, session bookkeeping and the HTTP calls of the worker client.
- SingleFlight.RefreshIsSingleFlight: runs with stop, which clears the in-flight flag under a running pass, are excluded.
- Temporary folder overrides and the direct starts and stops of the boot sequence.
- FormatSnapshot: element lines and banners arrive already rendered; lengths count characters, not UTF-16 units of astral ones.
- RunTests: spawning Playwright, finding the JSON in its output, colour codes, the durations of the header and the texts of summary and note.
- Monotonicity of fitting in the number of tests: not needed, because the scan is linear.
- The budgets of the console and network log tools: a plain prefix of the text.
- Governor: samples are reals, so NaN is not modelled; process sampling and the timer are inputs; listeners do not subscribe or unsubscribe from inside a notification.
- The slowest-tests list, durations, acceptance tags, and the title, file and message chosen for a failure: fallback chains and slices.
- CountResults: a record of counters is the multiset of what it counts, and a status text is reduced to passed, skipped or other.
- Health score: computed over the reals; floating-point rounding is not modelled. Grades, alerts and labels are left out.
- TestFileIndex: concurrent calls of snapshots on one index; the patterns that parse a file are one function.
- ContentGraph: node ids that are properties of Object.prototype, which the source's lookup would find; the reference, tool and placeholder checks.
- Browser bridge, views, panels, status bar, configuration detection, encryption: foreign calls or user interface.
