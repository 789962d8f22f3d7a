# Annotation visitors and contribution accumulators of wit-bindgen (Rust backend)

This project models, in Dafny, the annotation layer of a wit-bindgen fork. In that layer, annotations written on WIT
items (`#rust(derive = "Clone")`, `#deprecated("use v2")`, ...) are routed to *visitors* registered under
an annotation target. A visitor answers each schema node (record, enum, field, variant case, function,
interface, world, ...) with an optional *contribution*: an accumulator of text fragments (attributes, derives,
doc comments, body prologue and epilogue lines, use statements, extra code) that the code generator splices
into the emitted Rust.

Modules, one per source file:

- `Accumulator` (accumulator.dfy): the ghost call log shared by all accumulators. `Appended(log, slot)` is
  the list that the calls to one `add_*` method built, in call order.
- `Contribution` (contribution.dfy): the language-neutral `TypeContribution`, `FieldContribution`,
  `VariantCaseContribution`, `FunctionContribution` and `ModuleContribution` of
  crates/rust/src/annotation_visitor/contribution.rs. Each is a class whose `seq<string>` fields its
  `Add*` methods extend in place. `Valid()` ties every field to the ghost log, so each list is exactly what
  its own add method pushed, in order. `IsEmpty()` holds exactly when no add method was ever called.
- `ContributionTypes` (contribution_types.dfy) and `ReturnTypes` (return_types.dfy): the Rust-backend
  accumulators of the same names, built the same way.
- `Visitor` (visitor.dfy): the hooks of the generic visitor. `Hook.Returns()` says which member of a
  backend's contribution family (`ContributionTypes`) each hook answers with. `DefaultHook` is the answer
  of a hook that a visitor does not override (nothing). `Registry.FindVisitorWithWarning` looks a visitor
  up by target and records the cargo warning on a miss.
- `Annotations` (annotations.dfy): combining all key/value maps for one language (later maps win),
  looking up one key (the first map that has it wins), and testing whether a language has annotations at all.
- `Text` (text.dfy): the two `str` operations the example hooks use (`split` on a character, `trim` with
  Rust's Unicode White_Space set). `Contains`, `OccursAt` and `ContainsFramed` state the integration
  tests' `contains` assertions about hook output, and `Join` and `Between` state round trips.
- `ExampleVisitors` (visitor_integration.dfy): the six visitors of the integration tests (deprecated,
  trace, validate, since, derive, logging). For each, the text its hooks emit is given as functions with
  lemmas (round trips, injectivity, which markers a line carries), and a per-hook method is proved to
  build exactly that contribution. Dispatch methods answer with nothing for hooks left at the default.

## Model

| member | source | states |
|---|---|---|
| Accumulator.AppendedSnoc | crates/rust/src/annotation_visitor/contribution.rs:50-52 | one more call to an add method appends its text to that method's list and leaves every other list as it was |
| Accumulator.AppendedEmptyIff | crates/rust/src/annotation_visitor/contribution.rs:123-128 | a list is empty exactly when its add method was never called |
| Accumulator.FirstAddShows | crates/rust/src/annotation_visitor/contribution.rs:123-128 | after any call, the list of the first call's method is non-empty (so is_empty can only turn false) |
| Accumulator.AppendedSingleSlot | crates/rust/src/annotation_visitor/contribution_types.rs:47-49 | when all calls went to one add method, its list is every text pushed, in call order |
| Contribution.TypeContribution.constructor | crates/rust/src/annotation_visitor/contribution.rs:37-39 | a new contribution has four empty lists, an empty log, and is empty |
| Contribution.TypeContribution.AddAttribute | crates/rust/src/annotation_visitor/contribution.rs:50-52 | appends the attribute, leaves derives, doc comments and code unchanged, and the contribution is no longer empty |
| Contribution.TypeContribution.AddDerive | crates/rust/src/annotation_visitor/contribution.rs:66-68 | appends the derive, leaves the other three lists unchanged; no longer empty |
| Contribution.TypeContribution.AddDocComment | crates/rust/src/annotation_visitor/contribution.rs:82-84 | appends the doc comment, leaves the other three lists unchanged; no longer empty |
| Contribution.TypeContribution.AddCode | crates/rust/src/annotation_visitor/contribution.rs:98-100 | appends the code, leaves the other three lists unchanged; no longer empty |
| Contribution.TypeContribution.Attributes | crates/rust/src/annotation_visitor/contribution.rs:103-105 | the attributes are exactly those add_attribute pushed, in call order |
| Contribution.TypeContribution.Derives | crates/rust/src/annotation_visitor/contribution.rs:108-110 | the derives are exactly those add_derive pushed, in call order |
| Contribution.TypeContribution.DocComments | crates/rust/src/annotation_visitor/contribution.rs:113-115 | the doc comments are exactly those add_doc_comment pushed, in call order |
| Contribution.TypeContribution.AdditionalCode | crates/rust/src/annotation_visitor/contribution.rs:118-120 | the code items are exactly those add_code pushed, in call order |
| Contribution.TypeContribution.IsEmpty | crates/rust/src/annotation_visitor/contribution.rs:123-128 | empty exactly when no add method has been called |
| Contribution.FieldContribution.constructor | crates/rust/src/annotation_visitor/contribution.rs:153-155 | a new field contribution has no attributes or doc comments and is empty |
| Contribution.FieldContribution.AddAttribute | crates/rust/src/annotation_visitor/contribution.rs:165-167 | appends the attribute, doc comments unchanged; no longer empty |
| Contribution.FieldContribution.AddDocComment | crates/rust/src/annotation_visitor/contribution.rs:176-178 | appends the doc comment, attributes unchanged; no longer empty |
| Contribution.FieldContribution.Attributes | crates/rust/src/annotation_visitor/contribution.rs:181-183 | the attributes pushed, in call order |
| Contribution.FieldContribution.DocComments | crates/rust/src/annotation_visitor/contribution.rs:186-188 | the doc comments pushed, in call order |
| Contribution.FieldContribution.IsEmpty | crates/rust/src/annotation_visitor/contribution.rs:191-193 | empty exactly when no add method has been called |
| Contribution.VariantCaseContribution.constructor | crates/rust/src/annotation_visitor/contribution.rs:218-220 | a new case contribution has no attributes or doc comments and is empty |
| Contribution.VariantCaseContribution.AddAttribute | crates/rust/src/annotation_visitor/contribution.rs:229-231 | appends the attribute, doc comments unchanged; no longer empty |
| Contribution.VariantCaseContribution.AddDocComment | crates/rust/src/annotation_visitor/contribution.rs:239-241 | appends the doc comment, attributes unchanged; no longer empty |
| Contribution.VariantCaseContribution.Attributes | crates/rust/src/annotation_visitor/contribution.rs:244-246 | the attributes pushed, in call order |
| Contribution.VariantCaseContribution.DocComments | crates/rust/src/annotation_visitor/contribution.rs:249-251 | the doc comments pushed, in call order |
| Contribution.VariantCaseContribution.IsEmpty | crates/rust/src/annotation_visitor/contribution.rs:254-256 | empty exactly when no add method has been called |
| Contribution.FunctionContribution.constructor | crates/rust/src/annotation_visitor/contribution.rs:289-291 | a new function contribution has four empty lists and is empty |
| Contribution.FunctionContribution.AddAttribute | crates/rust/src/annotation_visitor/contribution.rs:301-303 | appends the attribute, other lists unchanged; no longer empty |
| Contribution.FunctionContribution.AddDocComment | crates/rust/src/annotation_visitor/contribution.rs:314-316 | appends the doc comment, other lists unchanged; no longer empty |
| Contribution.FunctionContribution.PrependBody | crates/rust/src/annotation_visitor/contribution.rs:328-330 | pushes the line at the end of the body prologue (not its front), other lists unchanged; no longer empty |
| Contribution.FunctionContribution.AppendBody | crates/rust/src/annotation_visitor/contribution.rs:341-343 | pushes the line at the end of the body epilogue, other lists unchanged; no longer empty |
| Contribution.FunctionContribution.Attributes | crates/rust/src/annotation_visitor/contribution.rs:346-348 | the attributes pushed, in call order |
| Contribution.FunctionContribution.DocComments | crates/rust/src/annotation_visitor/contribution.rs:351-353 | the doc comments pushed, in call order |
| Contribution.FunctionContribution.BodyPrefix | crates/rust/src/annotation_visitor/contribution.rs:356-358 | the prologue lines pushed by prepend_body, in call order |
| Contribution.FunctionContribution.BodySuffix | crates/rust/src/annotation_visitor/contribution.rs:361-363 | the epilogue lines pushed by append_body, in call order |
| Contribution.FunctionContribution.IsEmpty | crates/rust/src/annotation_visitor/contribution.rs:366-371 | empty (all four lists empty) exactly when no add method has been called |
| Contribution.ModuleContribution.constructor | crates/rust/src/annotation_visitor/contribution.rs:398-400 | a new module contribution has no code and no use statements and is empty |
| Contribution.ModuleContribution.AddCode | crates/rust/src/annotation_visitor/contribution.rs:416-418 | appends the code, use statements unchanged; no longer empty |
| Contribution.ModuleContribution.AddUse | crates/rust/src/annotation_visitor/contribution.rs:430-432 | appends the use statement, code unchanged; no longer empty |
| Contribution.ModuleContribution.AdditionalCode | crates/rust/src/annotation_visitor/contribution.rs:435-437 | the code items pushed, in call order |
| Contribution.ModuleContribution.UseStatements | crates/rust/src/annotation_visitor/contribution.rs:440-442 | the use statements pushed, in call order |
| Contribution.ModuleContribution.IsEmpty | crates/rust/src/annotation_visitor/contribution.rs:445-447 | empty exactly when no add method has been called |
| ContributionTypes.RustTypeContribution.constructor | crates/rust/src/annotation_visitor/contribution_types.rs:13-15 | no derives, no attributes, empty |
| ContributionTypes.RustTypeContribution.AddDerive | crates/rust/src/annotation_visitor/contribution_types.rs:18-20 | appends the derive, attributes unchanged; no longer empty |
| ContributionTypes.RustTypeContribution.AddAttribute | crates/rust/src/annotation_visitor/contribution_types.rs:23-25 | appends the attribute, derives unchanged; no longer empty |
| ContributionTypes.RustTypeContribution.IsEmpty | crates/rust/src/annotation_visitor/contribution_types.rs:28-30 | empty exactly when no add method has been called |
| ContributionTypes.RustFieldContribution.constructor | crates/rust/src/annotation_visitor/contribution_types.rs:42-44 | no attributes, empty |
| ContributionTypes.RustFieldContribution.AddAttribute | crates/rust/src/annotation_visitor/contribution_types.rs:47-49 | appends the attribute; no longer empty |
| ContributionTypes.RustFieldContribution.IsEmpty | crates/rust/src/annotation_visitor/contribution_types.rs:52-54 | empty exactly when add_attribute has not been called |
| ContributionTypes.FieldAttributesInCallOrder | crates/rust/tests/visitor_unit_tests.rs:44-53 | a field contribution's attributes are every attribute added, in call order |
| ContributionTypes.RustVariantCaseContribution.constructor | crates/rust/src/annotation_visitor/contribution_types.rs:66-68 | no attributes, empty |
| ContributionTypes.RustVariantCaseContribution.AddAttribute | crates/rust/src/annotation_visitor/contribution_types.rs:71-73 | appends the attribute; no longer empty |
| ContributionTypes.RustVariantCaseContribution.IsEmpty | crates/rust/src/annotation_visitor/contribution_types.rs:76-78 | empty exactly when add_attribute has not been called |
| ContributionTypes.CaseAttributesInCallOrder | crates/rust/tests/visitor_unit_tests.rs:56-65 | a case contribution's attributes are every attribute added, in call order |
| ContributionTypes.RustFunctionContribution.constructor | crates/rust/src/annotation_visitor/contribution_types.rs:94-96 | no attributes, no prologue, no epilogue, empty |
| ContributionTypes.RustFunctionContribution.AddAttribute | crates/rust/src/annotation_visitor/contribution_types.rs:99-101 | appends the attribute, prologue and epilogue unchanged; no longer empty |
| ContributionTypes.RustFunctionContribution.AddBodyPrefix | crates/rust/src/annotation_visitor/contribution_types.rs:104-106 | appends the prologue line, attributes and epilogue unchanged; no longer empty |
| ContributionTypes.RustFunctionContribution.AddBodySuffix | crates/rust/tests/visitor_integration.rs:306-316 | appends the epilogue line, other lists unchanged, and does not change whether the contribution counts as empty |
| ContributionTypes.RustFunctionContribution.IsEmpty | crates/rust/src/annotation_visitor/contribution_types.rs:109-111 | empty exactly when every call so far was add_body_suffix (attributes and prologue only are checked) |
| ContributionTypes.RustModuleContribution.constructor | crates/rust/src/annotation_visitor/contribution_types.rs:126-128 | no use statements, no code, empty |
| ContributionTypes.RustModuleContribution.AddUse | crates/rust/src/annotation_visitor/contribution_types.rs:131-133 | appends the use statement, code unchanged; no longer empty |
| ContributionTypes.RustModuleContribution.AddCode | crates/rust/src/annotation_visitor/contribution_types.rs:136-138 | appends the code, use statements unchanged; no longer empty |
| ContributionTypes.RustModuleContribution.IsEmpty | crates/rust/src/annotation_visitor/contribution_types.rs:141-143 | empty exactly when no add method has been called |
| ReturnTypes.TypeContribution.constructor | crates/rust/src/annotation_visitor/return_types.rs:20-22 | no derives, no attributes, empty |
| ReturnTypes.TypeContribution.AddDerive | crates/rust/src/annotation_visitor/return_types.rs:25-27 | appends the derive, attributes unchanged; no longer empty |
| ReturnTypes.TypeContribution.AddAttribute | crates/rust/src/annotation_visitor/return_types.rs:30-32 | appends the attribute, derives unchanged; no longer empty |
| ReturnTypes.TypeContribution.IsEmpty | crates/rust/src/annotation_visitor/return_types.rs:35-37 | empty exactly when no add method has been called |
| ReturnTypes.FieldContribution.constructor | crates/rust/src/annotation_visitor/return_types.rs:48-50 | no attributes, empty |
| ReturnTypes.FieldContribution.AddAttribute | crates/rust/src/annotation_visitor/return_types.rs:53-55 | appends the attribute; no longer empty |
| ReturnTypes.FieldContribution.IsEmpty | crates/rust/src/annotation_visitor/return_types.rs:58-60 | empty exactly when add_attribute has not been called |
| ReturnTypes.VariantCaseContribution.constructor | crates/rust/src/annotation_visitor/return_types.rs:71-73 | no attributes, empty |
| ReturnTypes.VariantCaseContribution.AddAttribute | crates/rust/src/annotation_visitor/return_types.rs:76-78 | appends the attribute; no longer empty |
| ReturnTypes.VariantCaseContribution.IsEmpty | crates/rust/src/annotation_visitor/return_types.rs:81-83 | empty exactly when add_attribute has not been called |
| ReturnTypes.FunctionContribution.constructor | crates/rust/src/annotation_visitor/return_types.rs:99-101 | no attributes, no prologue, empty |
| ReturnTypes.FunctionContribution.AddAttribute | crates/rust/src/annotation_visitor/return_types.rs:104-106 | appends the attribute, prologue unchanged; no longer empty |
| ReturnTypes.FunctionContribution.AddBodyPrefix | crates/rust/src/annotation_visitor/return_types.rs:109-111 | appends the prologue line, attributes unchanged; no longer empty |
| ReturnTypes.FunctionContribution.IsEmpty | crates/rust/src/annotation_visitor/return_types.rs:114-116 | empty exactly when no add method has been called |
| ReturnTypes.ModuleContribution.constructor | crates/rust/src/annotation_visitor/return_types.rs:130-132 | no use statements, no code, empty |
| ReturnTypes.ModuleContribution.AddUse | crates/rust/src/annotation_visitor/return_types.rs:135-137 | appends the use statement, code unchanged; no longer empty |
| ReturnTypes.ModuleContribution.AddCode | crates/rust/src/annotation_visitor/return_types.rs:140-142 | appends the code, use statements unchanged; no longer empty |
| ReturnTypes.ModuleContribution.IsEmpty | crates/rust/src/annotation_visitor/return_types.rs:145-147 | empty exactly when no add method has been called |
| Visitor.Warning | crates/core/src/visitor.rs:156-158 | the line printed on a miss is the cargo warning prefix, the target, and a closing quote, and the target reads back from between them |
| Visitor.WarningNamesTarget | crates/core/src/visitor.rs:156-158 | two warnings are equal exactly when they name the same target |
| Visitor.Registry.constructor | crates/core/src/visitor.rs:152 | a registry holds the given visitors and no warning yet |
| Visitor.Registry.FindVisitorWithWarning | crates/core/src/visitor.rs:153-161 | a registered target yields its visitor and no warning; an unregistered one yields nothing and exactly one warning naming it; the registry is unchanged |
| Annotations.GetAllAnnotationsForLanguage | crates/rust/src/annotations.rs:7-18 | the loop computes the combination of every map tagged with the language, later maps overriding earlier ones |
| Annotations.CombinedKeys | crates/rust/src/annotations.rs:12-16 | a key is in the combination exactly when some annotation for the language sets it |
| Annotations.CombinedLastWins | crates/rust/src/annotations.rs:14 | the combined value of a key is the one from the last annotation for the language that sets it |
| Annotations.CombinedOfNone | crates/rust/src/annotations.rs:11-17 | with no annotation for the language, the combination is the empty map |
| Annotations.GetAnnotationValue | crates/rust/src/annotations.rs:22-35 | the loop returns the value of the key in the first map for the language that has it, or nothing |
| Annotations.FirstValueFirstWins | crates/rust/src/annotations.rs:27-33 | the value found is the one from the first annotation for the language that sets the key |
| Annotations.FirstValueNone | crates/rust/src/annotations.rs:34 | nothing is found exactly when no annotation for the language sets the key |
| Annotations.FirstValueIsCombinedReversed | crates/rust/src/annotations.rs:7-35 | single-key lookup is the combination of the reversed list: the two functions use opposite precedence |
| Annotations.LookupsAgreeOnSingleSetter | crates/rust/src/annotations.rs:7-35 | when exactly one annotation sets a key, lookup and combination give the same value |
| Annotations.LookupsDisagreeOnRepeatedKey | crates/rust/src/annotations.rs:7-35 | when two rust annotations set derive differently, lookup gives the first value and the combination the second |
| Annotations.HasAnnotationsForLanguage | crates/rust/src/annotations.rs:38-40 | true exactly when some annotation is tagged with the language |
| Annotations.NothingForLanguage | crates/rust/src/annotations.rs:7-40 | with no annotation for the language, the combination is empty and no key is found |
| Text.Trim | crates/rust/tests/visitor_integration.rs:188 | the result has no whitespace at either end |
| Text.TrimIsSlice | crates/rust/tests/visitor_integration.rs:188 | trim keeps one slice of the input and cuts only whitespace before and after it |
| Text.TrimKeepsOut | crates/rust/tests/visitor_integration.rs:188 | trim introduces no character |
| Text.TrimOfPadded | crates/rust/tests/visitor_integration.rs:188 | a name with no whitespace at its ends trims to itself, also after one leading space |
| Text.Split | crates/rust/tests/visitor_integration.rs:188 | split yields at least one piece and no piece holds the separator |
| Text.JoinSplit | crates/rust/tests/visitor_integration.rs:188 | gluing the pieces back with the separator restores the input |
| Text.SplitJoin | crates/rust/tests/visitor_integration.rs:188 | splitting separator-free pieces glued by the separator gives the pieces back |
| ExampleVisitors.ExampleVisitor.Target | crates/rust/tests/visitor_integration.rs:22-282 | the target each example visitor answers to, from its `target()` body (lines 22-24, 66-68, 112-114, 139-141, 177-179, 280-282): a non-empty bare lower-case word |
| ExampleVisitors.TargetsDistinct | crates/rust/tests/visitor_integration.rs:217-223 | the example visitors' targets are pairwise distinct |
| ExampleVisitors.DeprecatedAttributeRoundTrip | crates/rust/tests/visitor_integration.rs:32-36 | the note read back from the deprecation attribute is the annotation, empty or not |
| ExampleVisitors.DeprecatedVisitFunction | crates/rust/tests/visitor_integration.rs:26-38 | the contribution is exactly one deprecation attribute built from the annotation |
| ExampleVisitors.DeprecatedVisitVariantCase | crates/rust/tests/visitor_integration.rs:40-53 | the case contribution is exactly one deprecation attribute built from the annotation |
| ExampleVisitors.TraceLevel | crates/rust/tests/visitor_integration.rs:78-82 | the level is never empty and is the annotation whenever that is non-empty |
| ExampleVisitors.TraceLineNamesFunction | crates/rust/tests/visitor_integration.rs:83-86 | the trace line gives back the function name between its fixed opening and closing |
| ExampleVisitors.TracingVisitFunction | crates/rust/tests/visitor_integration.rs:70-89 | one instrument attribute and one trace line at the level from the annotation naming the function |
| ExampleVisitors.TracingVisitInterface | crates/rust/tests/visitor_integration.rs:91-99 | exactly the "use tracing" statement and no code |
| ExampleVisitors.AssertLineInjective | crates/rust/tests/visitor_integration.rs:123 | two conditions give the same assertion line exactly when they are equal |
| ExampleVisitors.ValidateVisitFunction | crates/rust/tests/visitor_integration.rs:116-126 | one assertion line when the annotation is non-empty, none otherwise; the contribution is empty exactly when the annotation is |
| ExampleVisitors.SinceInjective | crates/rust/tests/visitor_integration.rs:149-162 | distinct versions give distinct doc attributes and distinct interface comments |
| ExampleVisitors.SinceVisitFunction | crates/rust/tests/visitor_integration.rs:143-151 | exactly one doc attribute recording the version |
| ExampleVisitors.SinceVisitInterface | crates/rust/tests/visitor_integration.rs:153-164 | exactly one comment recording the version, no use statement |
| ExampleVisitors.NonEmptySnoc | crates/rust/tests/visitor_integration.rs:188-192 | filtering one more trimmed piece appends it unless it is empty |
| ExampleVisitors.NonEmptyKeeps | crates/rust/tests/visitor_integration.rs:189 | the filter keeps only non-empty strings taken from its input |
| ExampleVisitors.NonEmptyAll | crates/rust/tests/visitor_integration.rs:189 | a list with no empty string passes the filter whole |
| ExampleVisitors.ParseDerives | crates/rust/tests/visitor_integration.rs:188-192 | every derive parsed is non-empty, trimmed and comma-free |
| ExampleVisitors.ParseEmpty | crates/rust/tests/visitor_integration.rs:188-192 | an empty annotation names no derive |
| ExampleVisitors.ParseJoinedDerives | crates/rust/tests/visitor_integration.rs:188-192 | clean derive names joined by ", " parse back to the same names in the same order |
| ExampleVisitors.ParseCloneDebug | crates/rust/tests/visitor_integration.rs:188-192 | "Clone, Debug" derives Clone then Debug |
| ExampleVisitors.DeriveVisitEnum | crates/rust/tests/visitor_integration.rs:181-194 | the loop adds exactly the parsed derives, in order, and no attribute |
| ExampleVisitors.AddTrimmedDerive | crates/rust/tests/visitor_integration.rs:188-192 | one loop step adds the trimmed piece as a derive unless it is empty |
| ExampleVisitors.LoggingPrefix | crates/rust/tests/visitor_integration.rs:292-303 | the prologue has one line more than there are parameters |
| ExampleVisitors.EntryLineMarked | crates/rust/tests/visitor_integration.rs:292-295 | the entry line contains "[ENTRY]" |
| ExampleVisitors.ParamLineNamesParam | crates/rust/tests/visitor_integration.rs:298-303 | a parameter's line contains "param '<name>'" |
| ExampleVisitors.LoggingPrefixMentions | crates/rust/tests/visitor_integration.rs:347-350 | the first prologue line marks the entry, and line k+1 names parameter k |
| ExampleVisitors.ExitLineMarked | crates/rust/tests/visitor_integration.rs:306-316 | the exit line contains "[EXIT]" |
| ExampleVisitors.ExitLineLogsResult | crates/rust/tests/visitor_integration.rs:306-310 | with a result, the exit line contains "__wit_result" |
| ExampleVisitors.ExitLineMentions | crates/rust/tests/visitor_integration.rs:306-316 | the exit line mentions "__wit_result" exactly when the function returns a value or its name already contains that text |
| ExampleVisitors.LoggingVisitFunction | crates/rust/tests/visitor_integration.rs:284-319 | the prologue is the entry line then one line per parameter in order, the epilogue is one exit line matching whether there is a result, no attribute, never empty |
| ExampleVisitors.VisitFunction | crates/core/src/visitor.rs:120-126 | answers with a contribution exactly when the visitor overrides the function hook, and then with exactly what that visitor's hook builds (deprecation attribute, instrument attribute and trace line, assertion line, since attribute, or logging prologue and exit line) |
| ExampleVisitors.VisitVariantCase | crates/core/src/visitor.rs:109-116 | answers exactly when the visitor overrides the variant-case hook, and then with exactly the deprecation attribute |
| ExampleVisitors.VisitField | crates/core/src/visitor.rs:99-106 | answers exactly when the visitor overrides the field hook (none of the examples does) |
| ExampleVisitors.VisitTypeHook | crates/core/src/visitor.rs:48-95 | a type-definition hook answers exactly when the visitor overrides it, and then with exactly the parsed derives and no attribute |
| ExampleVisitors.VisitModuleHook | crates/core/src/visitor.rs:130-145 | an interface or world hook answers exactly when the visitor overrides it, and then with exactly "use tracing" or the since comment |

## Left out

- crates/rust/src/wit_visitor.rs and crates/rust/src/annotation_visitor/mod.rs hold no logic; they are not part of this model.
- The WIT node types the hooks receive (`Record`, `Enum`, `Function`, `Interface`, ...): a hook reads only the annotation text, except the tracing and logging function hooks, which read the function's name, its parameter names and whether it has a result. Every function hook takes these as a `FunctionNode`; every other node parameter (type ids, the case and its index, the enum, the interface) is dropped, since no example hook reads it.
- `Registry.FindVisitorWithWarning`: the source returns `&mut Box<T>`, a mutable borrow of the stored visitor; the model returns the stored value, so aliasing through that borrow is not captured. The cargo warning goes to standard output; the model records it in the ghost `diagnostics` log.
- `impl Into<String>` arguments are modelled as plain strings; the conversion is the identity on the text.
- The core visitor binds one family of contribution types to each backend (`type Contributions: ContributionTypes`, crates/core/src/visitor.rs:9-24 and 41), while the example visitors declare the five types one by one. The model keeps the family as the table `Hook.Returns()` and lets the example visitors use the `ContributionTypes` classes.
- ContributionTypes.RustFunctionContribution: the struct at crates/rust/src/annotation_visitor/contribution_types.rs:84-91 declares no epilogue list (only a note that one is still to come), yet the integration tests call `add_body_suffix` and read `body_suffix` (crates/rust/tests/visitor_integration.rs:307-316, 339-353). The model adds `bodySuffix` and `AddBodySuffix` and keeps `is_empty` as written (attributes and prologue only), so a contribution holding only epilogue lines reports empty.
- `DefaultHook` and `Hook.Returns` state the defaults and the family table by definition and carry no contract of their own; the dispatch methods state what follows from them.
- The annotation list is a sequence of (language, map) pairs; the parser that builds it from WIT source is not part of this model.
