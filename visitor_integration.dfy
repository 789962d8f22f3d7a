/**
 * The six example visitors of crates/rust/tests/visitor_integration.rs, each
 * built on the Rust backend's contribution family: what each hook they
 * override contributes, as text functions with the properties the tests
 * check, and the dispatch that answers with nothing for a hook left at its
 * default.
 */
module ExampleVisitors {
  import opened Options
  import opened Text
  import Visitor
  import opened ContributionTypes

  /** The parts of a schema function the hooks read: its name, its parameter names, whether it returns a value. */
  datatype FunctionNode = FunctionNode(name: string, params: seq<string>, hasResult: bool)

  datatype ExampleVisitor =
    | DeprecatedVisitor | TracingVisitor | ValidateVisitor | SinceVisitor | DeriveVisitor | LoggingVisitor
  {
    /** The annotation target the visitor is registered under: a bare lower-case word, as written after `#`. */
    function Target(): (r: string)
      ensures r != []
      ensures forall k | 0 <= k < |r| :: 'a' <= r[k] <= 'z'
    {
      match this
      case DeprecatedVisitor => "deprecated"
      case TracingVisitor => "trace"
      case ValidateVisitor => "validate"
      case SinceVisitor => "since"
      case DeriveVisitor => "derive"
      case LoggingVisitor => "logging"
    }

    /** The hooks the visitor overrides; every other hook keeps the default. */
    function Overrides(): set<Visitor.Hook>
    {
      match this
      case DeprecatedVisitor => {Visitor.Hook.VisitFunction, Visitor.Hook.VisitVariantCase}
      case TracingVisitor => {Visitor.Hook.VisitFunction, Visitor.Hook.VisitInterface}
      case ValidateVisitor => {Visitor.Hook.VisitFunction}
      case SinceVisitor => {Visitor.Hook.VisitFunction, Visitor.Hook.VisitInterface}
      case DeriveVisitor => {Visitor.Hook.VisitEnum}
      case LoggingVisitor => {Visitor.Hook.VisitFunction}
    }
  }

  /** No two example visitors share a target, so a registry keyed by target can hold all six. */
  lemma TargetsDistinct(v: ExampleVisitor, w: ExampleVisitor)
    ensures v.Target() == w.Target() <==> v == w
  {
  }

  // ---------------------------------------------------------------- deprecated

  const DeprecatedNoteOpen := "#[deprecated = \""
  const DeprecatedNoteClose := "\"]"

  /** The attribute marking an item deprecated, carrying the annotation as its note when there is one. */
  function DeprecatedAttribute(note: string): string
  {
    if note == [] then "#[deprecated]" else DeprecatedNoteOpen + note + DeprecatedNoteClose
  }

  /** The note a deprecation attribute carries, if it is one. */
  function DeprecationNote(attr: string): Option<string>
  {
    if attr == "#[deprecated]" then Some([]) else Between(attr, DeprecatedNoteOpen, DeprecatedNoteClose)
  }

  /** The attribute gives back the annotation it was made from, empty or not. */
  lemma DeprecatedAttributeRoundTrip(note: string)
    ensures DeprecationNote(DeprecatedAttribute(note)) == Some(note)
  {
    if note != [] {
      BetweenWrapped(DeprecatedNoteOpen, note, DeprecatedNoteClose);
    }
  }

  method DeprecatedVisitFunction(annotation: string, func: FunctionNode) returns (c: RustFunctionContribution)
    ensures fresh(c) && c.Valid()
    ensures c.attributes == [DeprecatedAttribute(annotation)] && c.bodyPrefix == [] && c.bodySuffix == []
  {
    c := new RustFunctionContribution();
    if annotation == [] {
      c.AddAttribute("#[deprecated]");
    } else {
      c.AddAttribute(DeprecatedNoteOpen + annotation + DeprecatedNoteClose);
    }
  }

  method DeprecatedVisitVariantCase(annotation: string) returns (c: RustVariantCaseContribution)
    ensures fresh(c) && c.Valid()
    ensures c.attributes == [DeprecatedAttribute(annotation)]
  {
    c := new RustVariantCaseContribution();
    if annotation == [] {
      c.AddAttribute("#[deprecated]");
    } else {
      c.AddAttribute(DeprecatedNoteOpen + annotation + DeprecatedNoteClose);
    }
  }

  // ---------------------------------------------------------------- trace

  /** The tracing macro used: the annotation, or debug when it is empty. */
  function TraceLevel(annotation: string): (r: string)
    ensures r != []
    ensures annotation != [] ==> r == annotation
  {
    if annotation == [] then "debug" else annotation
  }

  function TraceOpen(level: string): string
  {
    "tracing::" + level + "!(\"Entering function: "
  }

  const TraceClose := "\");"

  /** The body line announcing entry into the function. */
  function TraceLine(level: string, name: string): string
  {
    TraceOpen(level) + name + TraceClose
  }

  /** A trace line names the function it was made for. */
  lemma TraceLineNamesFunction(level: string, name: string)
    ensures Between(TraceLine(level, name), TraceOpen(level), TraceClose) == Some(name)
  {
    BetweenWrapped(TraceOpen(level), name, TraceClose);
  }

  method TracingVisitFunction(annotation: string, func: FunctionNode) returns (c: RustFunctionContribution)
    ensures fresh(c) && c.Valid()
    ensures c.attributes == ["#[tracing::instrument]"]
    ensures c.bodyPrefix == [TraceLine(TraceLevel(annotation), func.name)] && c.bodySuffix == []
  {
    c := new RustFunctionContribution();
    c.AddAttribute("#[tracing::instrument]");
    var level := if annotation == [] then "debug" else annotation;
    c.AddBodyPrefix("tracing::" + level + "!(\"Entering function: " + func.name + "\");");
  }

  method TracingVisitInterface(annotation: string) returns (c: RustModuleContribution)
    ensures fresh(c) && c.Valid()
    ensures c.useStatements == ["use tracing"] && c.additionalCode == []
  {
    c := new RustModuleContribution();
    c.AddUse("use tracing");
  }

  // ---------------------------------------------------------------- validate

  const AssertOpen := "assert!("
  const AssertClose := ", \"Validation failed\");"

  /** The body line asserting the annotation's condition. */
  function AssertLine(condition: string): string
  {
    AssertOpen + condition + AssertClose
  }

  /** Different conditions give different assertions. */
  lemma AssertLineInjective(a: string, b: string)
    ensures AssertLine(a) == AssertLine(b) <==> a == b
  {
    BetweenWrapped(AssertOpen, a, AssertClose);
    BetweenWrapped(AssertOpen, b, AssertClose);
  }

  /** An empty condition contributes nothing, so the contribution is empty exactly then. */
  method ValidateVisitFunction(annotation: string, func: FunctionNode) returns (c: RustFunctionContribution)
    ensures fresh(c) && c.Valid()
    ensures c.attributes == [] && c.bodySuffix == []
    ensures c.bodyPrefix == if annotation == [] then [] else [AssertLine(annotation)]
    ensures c.IsEmpty() <==> annotation == []
  {
    c := new RustFunctionContribution();
    if annotation != [] {
      c.AddBodyPrefix("assert!(" + annotation + ", \"Validation failed\");");
    }
  }

  // ---------------------------------------------------------------- since

  const SinceOpen := "#[doc = \"Since version: "
  const SinceClose := "\"]"
  const SinceNote := "// Interface available since version: "

  /** The doc attribute recording the version a function appeared in. */
  function SinceAttribute(version: string): string
  {
    SinceOpen + version + SinceClose
  }

  /** The comment recording the version an interface appeared in. */
  function SinceComment(version: string): string
  {
    SinceNote + version
  }

  /** Different versions give different doc attributes and different comments. */
  lemma SinceInjective(a: string, b: string)
    ensures SinceAttribute(a) == SinceAttribute(b) <==> a == b
    ensures SinceComment(a) == SinceComment(b) <==> a == b
  {
    BetweenWrapped(SinceOpen, a, SinceClose);
    BetweenWrapped(SinceOpen, b, SinceClose);
    BetweenWrapped(SinceNote, a, []);
    BetweenWrapped(SinceNote, b, []);
  }

  method SinceVisitFunction(annotation: string, func: FunctionNode) returns (c: RustFunctionContribution)
    ensures fresh(c) && c.Valid()
    ensures c.attributes == [SinceAttribute(annotation)] && c.bodyPrefix == [] && c.bodySuffix == []
  {
    c := new RustFunctionContribution();
    c.AddAttribute("#[doc = \"Since version: " + annotation + "\"]");
  }

  method SinceVisitInterface(annotation: string) returns (c: RustModuleContribution)
    ensures fresh(c) && c.Valid()
    ensures c.additionalCode == [SinceComment(annotation)] && c.useStatements == []
  {
    c := new RustModuleContribution();
    c.AddCode("// Interface available since version: " + annotation);
  }

  // ---------------------------------------------------------------- derive

  /** A derive name as the derive hook emits it: non-empty, trimmed, no comma. */
  predicate CleanDerive(d: string)
  {
    d != [] && IsTrimmed(d) && ',' !in d
  }

  /** Each piece trimmed, as the hook's iterator yields them. */
  function Trimmed(pieces: seq<string>): (r: seq<string>)
    ensures |r| == |pieces|
  {
    seq(|pieces|, k requires 0 <= k < |pieces| => Trim(pieces[k]))
  }

  /** The non-empty strings of ts, in order. */
  function NonEmpty(ts: seq<string>): (r: seq<string>)
    ensures |r| <= |ts|
  {
    if ts == [] then [] else (if ts[0] == [] then [] else [ts[0]]) + NonEmpty(ts[1..])
  }

  /** Filtering one more string appends it unless it is empty. */
  lemma {:induction false} NonEmptySnoc(ts: seq<string>, t: string)
    ensures NonEmpty(ts + [t]) == NonEmpty(ts) + (if t == [] then [] else [t])
  {
    if ts != [] {
      assert (ts + [t])[1..] == ts[1..] + [t];
      NonEmptySnoc(ts[1..], t);
    } else {
      assert ([] + [t])[1..] == [];
    }
  }

  /** What the filter keeps is non-empty and taken from ts. */
  lemma {:induction false} NonEmptyKeeps(ts: seq<string>)
    ensures forall k | 0 <= k < |NonEmpty(ts)| :: NonEmpty(ts)[k] != [] && NonEmpty(ts)[k] in ts
  {
    if ts != [] {
      NonEmptyKeeps(ts[1..]);
    }
  }

  /** A list with no empty string passes the filter whole. */
  lemma {:induction false} NonEmptyAll(ts: seq<string>)
    requires forall k | 0 <= k < |ts| :: ts[k] != []
    ensures NonEmpty(ts) == ts
  {
    if ts != [] {
      NonEmptyAll(ts[1..]);
    }
  }

  /**
   * The derives named by a comma-separated annotation such as "Clone, Debug":
   * split at the commas, trim each piece, keep the non-empty ones in order.
   */
  function ParseDerives(annotation: string): (r: seq<string>)
    ensures forall k | 0 <= k < |r| :: CleanDerive(r[k])
  {
    var pieces := Split(annotation, ',');
    var trimmed := Trimmed(pieces);
    NonEmptyKeeps(trimmed);
    assert forall t | t in trimmed :: IsTrimmed(t) && ',' !in t by {
      forall t | t in trimmed
        ensures IsTrimmed(t) && ',' !in t
      {
        var j :| 0 <= j < |pieces| && t == trimmed[j];
        TrimKeepsOut(pieces[j], ',');
      }
    }
    NonEmpty(trimmed)
  }

  /** Each name preceded by one space. */
  function Padded(ds: seq<string>): (r: seq<string>)
    ensures |r| == |ds|
    ensures forall k | 0 <= k < |r| :: r[k] == [' '] + ds[k]
  {
    if ds == [] then [] else [[' '] + ds[0]] + Padded(ds[1..])
  }

  /** Joining with ", " is joining the space-padded names with ",". */
  lemma {:induction false} JoinPadded(ds: seq<string>)
    requires |ds| >= 1
    ensures Join(Padded(ds), [',']) == [' '] + Join(ds, ", ")
  {
    if |ds| >= 2 {
      JoinPadded(ds[1..]);
      assert Padded(ds)[1..] == Padded(ds[1..]);
      calc {
        Join(Padded(ds), [',']);
        ([' '] + ds[0]) + [','] + Join(Padded(ds[1..]), [',']);
        ([' '] + ds[0]) + [','] + ([' '] + Join(ds[1..], ", "));
        [' '] + (ds[0] + ", " + Join(ds[1..], ", "));
      }
    }
  }

  /** The pieces the ", "-joined names split into at the commas: the first name, then each other name after a space. */
  function JoinedPieces(ds: seq<string>): (r: seq<string>)
    requires |ds| >= 1
    ensures |r| == |ds| && r[0] == ds[0]
    ensures forall k | 1 <= k < |r| :: r[k] == [' '] + ds[k]
  {
    [ds[0]] + Padded(ds[1..])
  }

  /** Joining with ", " is joining those pieces with ",". */
  lemma JoinAsPieces(ds: seq<string>)
    requires |ds| >= 1
    ensures Join(ds, ", ") == Join(JoinedPieces(ds), [','])
  {
    var pieces := JoinedPieces(ds);
    if |ds| == 1 {
      assert Join(pieces, [',']) == pieces[0];
    } else {
      assert pieces[1..] == Padded(ds[1..]);
      JoinPadded(ds[1..]);
      JoinCommaSpace(ds[0], Join(ds[1..], ", "));
    }
  }

  /** A ", " between two parts is a "," and then a space in front of the second. */
  lemma JoinCommaSpace(head: string, rest: string)
    ensures head + ", " + rest == head + [','] + ([' '] + rest)
  {
    assert [','] + [' '] == ", ";
  }

  /** Trimming those pieces gives the clean names back. */
  lemma TrimmedJoinedPieces(ds: seq<string>)
    requires |ds| >= 1
    requires forall k | 0 <= k < |ds| :: CleanDerive(ds[k])
    ensures Trimmed(JoinedPieces(ds)) == ds
  {
    var pieces := JoinedPieces(ds);
    forall k | 0 <= k < |ds|
      ensures Trim(pieces[k]) == ds[k]
    {
      TrimOfPadded(ds[k]);
    }
  }

  /** An empty annotation names no derive. */
  lemma ParseEmpty()
    ensures ParseDerives([]) == []
  {
    assert Split([], ',') == [[]];
    assert Trimmed([[]]) == [[]];
  }

  /** None of those pieces holds a comma. */
  lemma JoinedPiecesCommaFree(ds: seq<string>)
    requires |ds| >= 1
    requires forall k | 0 <= k < |ds| :: CleanDerive(ds[k])
    ensures forall j | 0 <= j < |JoinedPieces(ds)| :: ',' !in JoinedPieces(ds)[j]
  {
  }

  /** Splitting the ", "-joined names at the commas gives those pieces. */
  lemma SplitJoinedDerives(ds: seq<string>)
    requires |ds| >= 1
    requires forall k | 0 <= k < |ds| :: CleanDerive(ds[k])
    ensures Split(Join(ds, ", "), ',') == JoinedPieces(ds)
  {
    JoinAsPieces(ds);
    JoinedPiecesCommaFree(ds);
    SplitJoin(JoinedPieces(ds), ',');
  }

  /** Writing clean derive names out joined by ", " and parsing them gives the same names in the same order. */
  lemma ParseJoinedDerives(ds: seq<string>)
    requires forall k | 0 <= k < |ds| :: CleanDerive(ds[k])
    ensures ParseDerives(Join(ds, ", ")) == ds
  {
    if ds == [] {
      ParseEmpty();
    } else {
      SplitJoinedDerives(ds);
      TrimmedJoinedPieces(ds);
      NonEmptyAll(ds);
    }
  }

  /** The annotation "Clone, Debug" derives Clone then Debug. */
  lemma ParseCloneDebug()
    ensures ParseDerives("Clone, Debug") == ["Clone", "Debug"]
  {
    var ds := ["Clone", "Debug"];
    assert CleanDerive(ds[0]) && CleanDerive(ds[1]);
    assert Join(ds, ", ") == "Clone, Debug";
    ParseJoinedDerives(ds);
  }

  method DeriveVisitEnum(annotation: string) returns (c: RustTypeContribution)
    ensures fresh(c) && c.Valid()
    ensures c.derives == ParseDerives(annotation) && c.attributes == []
  {
    c := new RustTypeContribution();
    var pieces := Split(annotation, ',');
    ghost var trimmed := Trimmed(pieces);
    for i := 0 to |pieces|
      invariant c.Valid()
      invariant c.derives == NonEmpty(trimmed[..i]) && c.attributes == []
    {
      assert trimmed[..i + 1] == trimmed[..i] + [trimmed[i]];
      NonEmptySnoc(trimmed[..i], trimmed[i]);
      AddTrimmedDerive(c, pieces[i]);
    }
    assert trimmed[..|pieces|] == trimmed;
  }

  /** The body of the derive loop: adds the trimmed piece as a derive unless it is empty. */
  method AddTrimmedDerive(c: RustTypeContribution, piece: string)
    requires c.Valid()
    modifies c
    ensures c.Valid() && c.attributes == old(c.attributes)
    ensures c.derives == old(c.derives) + if Trim(piece) == [] then [] else [Trim(piece)]
  {
    var derive := Trim(piece);
    if derive != [] {
      c.AddDerive(derive);
    }
  }

  // ---------------------------------------------------------------- logging

  const EntryOpen := "println!(\"[ENTRY] "
  const ParamOpen := "println!(\"  param '"
  const ParamMid := "' = {:?}\", "
  const ParamClose := ");"
  const ExitOpen := "println!(\"[EXIT] "
  const LineClose := "\");"
  const ExitResultClose := " => {:?}\", __wit_result);"

  /** The body line logging entry into the function. */
  function EntryLine(name: string): string
  {
    EntryOpen + name + LineClose
  }

  /** The body line logging one parameter's value. */
  function ParamLine(param: string): string
  {
    ParamOpen + param + ParamMid + param + ParamClose
  }

  /** The epilogue line logging the exit, with the result when the function returns one. */
  function ExitLine(name: string, hasResult: bool): string
  {
    if hasResult then ExitOpen + name + ExitResultClose else ExitOpen + name + LineClose
  }

  /** The prologue: the entry line, then one line per parameter in declaration order. */
  function LoggingPrefix(func: FunctionNode): (r: seq<string>)
    ensures |r| == 1 + |func.params|
  {
    [EntryLine(func.name)] + seq(|func.params|, k requires 0 <= k < |func.params| => ParamLine(func.params[k]))
  }

  /** The entry line carries the entry marker. */
  lemma EntryLineMarked(name: string)
    ensures Contains(EntryLine(name), "[ENTRY]")
  {
    var line := EntryLine(name);
    assert line[10..17] == EntryOpen[10..17] == "[ENTRY]";
    assert OccursAt(line, "[ENTRY]", 10);
  }

  /** A parameter's line names the parameter in quotes. */
  lemma ParamLineNamesParam(param: string)
    ensures Contains(ParamLine(param), "param '" + param + "'")
  {
    var w := "param '" + param + "'";
    var line := ParamLine(param);
    assert line == "println!(\"  " + w + ParamMid[1..] + param + ParamClose;
    assert line[12..12 + |w|] == w;
    assert OccursAt(line, w, 12);
  }

  /** The prologue marks the entry first and names each parameter on its own line, in order. */
  lemma LoggingPrefixMentions(func: FunctionNode)
    ensures Contains(LoggingPrefix(func)[0], "[ENTRY]")
    ensures forall k | 0 <= k < |func.params| :: Contains(LoggingPrefix(func)[k + 1], "param '" + func.params[k] + "'")
  {
    EntryLineMarked(func.name);
    forall k | 0 <= k < |func.params|
      ensures Contains(LoggingPrefix(func)[k + 1], "param '" + func.params[k] + "'")
    {
      ParamLineNamesParam(func.params[k]);
    }
  }

  /** The exit line carries the exit marker. */
  lemma ExitLineMarked(name: string, hasResult: bool)
    ensures Contains(ExitLine(name, hasResult), "[EXIT]")
  {
    var line := ExitLine(name, hasResult);
    assert line[10..16] == ExitOpen[10..16] == "[EXIT]";
    assert OccursAt(line, "[EXIT]", 10);
  }

  /** With a result, the exit line logs the result variable. */
  lemma ExitLineLogsResult(name: string)
    ensures Contains(ExitLine(name, true), "__wit_result")
  {
    var line := ExitLine(name, true);
    var w := "__wit_result";
    var at := |ExitOpen| + |name| + 11;
    var tail := line[|ExitOpen| + |name|..];
    assert tail == ExitResultClose;
    assert ExitResultClose[11..23] == w;
    assert line[at..at + |w|] == tail[11..23];
    assert OccursAt(line, w, at);
  }

  /** The exit line marks the exit, and mentions the result variable exactly when the function returns one or its name already does. */
  lemma ExitLineMentions(name: string, hasResult: bool)
    ensures Contains(ExitLine(name, hasResult), "[EXIT]")
    ensures Contains(ExitLine(name, hasResult), "__wit_result") <==> hasResult || Contains(name, "__wit_result")
  {
    ExitLineMarked(name, hasResult);
    if hasResult {
      ExitLineLogsResult(name);
    } else {
      ContainsFramed(ExitOpen, name, LineClose, "__wit_result");
    }
  }

  /** The prologue and epilogue of the logging hook; it never contributes nothing. */
  method LoggingVisitFunction(annotation: string, func: FunctionNode) returns (c: RustFunctionContribution)
    ensures fresh(c) && c.Valid()
    ensures c.attributes == []
    ensures c.bodyPrefix == LoggingPrefix(func)
    ensures c.bodySuffix == [ExitLine(func.name, func.hasResult)]
    ensures !c.IsEmpty()
  {
    c := new RustFunctionContribution();
    c.AddBodyPrefix(EntryOpen + func.name + LineClose);
    for i := 0 to |func.params|
      invariant fresh(c) && c.Valid() && !c.IsEmpty()
      invariant c.attributes == [] && c.bodySuffix == []
      invariant c.bodyPrefix == LoggingPrefix(FunctionNode(func.name, func.params[..i], func.hasResult))
    {
      var param := func.params[i];
      c.AddBodyPrefix(ParamOpen + param + ParamMid + param + ParamClose);
    }
    assert func.params[..|func.params|] == func.params;
    if func.hasResult {
      c.AddBodySuffix(ExitOpen + func.name + ExitResultClose);
    } else {
      c.AddBodySuffix(ExitOpen + func.name + LineClose);
    }
  }

  // ---------------------------------------------------------------- dispatch

  /** The function hook: an overriding visitor's contribution, the default's nothing otherwise. */
  method VisitFunction(v: ExampleVisitor, annotation: string, func: FunctionNode) returns (r: Option<RustFunctionContribution>)
    ensures r.Some? <==> Visitor.Hook.VisitFunction in v.Overrides()
    ensures r.Some? ==> fresh(r.value) && r.value.Valid()
    ensures v == DeprecatedVisitor ==> (r.Some? &&
      r.value.attributes == [DeprecatedAttribute(annotation)] && r.value.bodyPrefix == [] && r.value.bodySuffix == [])
    ensures v == TracingVisitor ==> (r.Some? && r.value.attributes == ["#[tracing::instrument]"] &&
      r.value.bodyPrefix == [TraceLine(TraceLevel(annotation), func.name)] && r.value.bodySuffix == [])
    ensures v == ValidateVisitor ==> (r.Some? && r.value.attributes == [] && r.value.bodySuffix == [] &&
      r.value.bodyPrefix == if annotation == [] then [] else [AssertLine(annotation)])
    ensures v == SinceVisitor ==> (r.Some? &&
      r.value.attributes == [SinceAttribute(annotation)] && r.value.bodyPrefix == [] && r.value.bodySuffix == [])
    ensures v == LoggingVisitor ==> (r.Some? && r.value.attributes == [] &&
      r.value.bodyPrefix == LoggingPrefix(func) && r.value.bodySuffix == [ExitLine(func.name, func.hasResult)])
  {
    match v
    case DeprecatedVisitor =>
      var c := DeprecatedVisitFunction(annotation, func);
      r := Some(c);
    case TracingVisitor =>
      var c := TracingVisitFunction(annotation, func);
      r := Some(c);
    case ValidateVisitor =>
      var c := ValidateVisitFunction(annotation, func);
      r := Some(c);
    case SinceVisitor =>
      var c := SinceVisitFunction(annotation, func);
      r := Some(c);
    case LoggingVisitor =>
      var c := LoggingVisitFunction(annotation, func);
      r := Some(c);
    case DeriveVisitor =>
      r := Visitor.DefaultHook(Visitor.Hook.VisitFunction, annotation);
  }

  /** The variant-case hook. */
  method VisitVariantCase(v: ExampleVisitor, annotation: string) returns (r: Option<RustVariantCaseContribution>)
    ensures r.Some? <==> Visitor.Hook.VisitVariantCase in v.Overrides()
    ensures r.Some? ==> fresh(r.value) && r.value.Valid()
    ensures r.Some? ==> r.value.attributes == [DeprecatedAttribute(annotation)]
  {
    if v == DeprecatedVisitor {
      var c := DeprecatedVisitVariantCase(annotation);
      r := Some(c);
    } else {
      r := Visitor.DefaultHook(Visitor.Hook.VisitVariantCase, annotation);
    }
  }

  /** The field hook: no example visitor overrides it. */
  method VisitField(v: ExampleVisitor, annotation: string) returns (r: Option<RustFieldContribution>)
    ensures r.Some? <==> Visitor.Hook.VisitField in v.Overrides()
  {
    r := Visitor.DefaultHook(Visitor.Hook.VisitField, annotation);
  }

  /** The hooks answering with a type contribution (record, variant, enum, flags, resource). */
  method VisitTypeHook(v: ExampleVisitor, hook: Visitor.Hook, annotation: string) returns (r: Option<RustTypeContribution>)
    requires hook.Returns() == Visitor.TypeKind
    ensures r.Some? <==> hook in v.Overrides()
    ensures r.Some? ==> fresh(r.value) && r.value.Valid()
    ensures r.Some? ==> r.value.derives == ParseDerives(annotation) && r.value.attributes == []
  {
    if v == DeriveVisitor && hook == Visitor.Hook.VisitEnum {
      var c := DeriveVisitEnum(annotation);
      r := Some(c);
    } else {
      r := Visitor.DefaultHook(hook, annotation);
    }
  }

  /** The hooks answering with a module contribution (interface, world). */
  method VisitModuleHook(v: ExampleVisitor, hook: Visitor.Hook, annotation: string) returns (r: Option<RustModuleContribution>)
    requires hook.Returns() == Visitor.ModuleKind
    ensures r.Some? <==> hook in v.Overrides()
    ensures r.Some? ==> fresh(r.value) && r.value.Valid()
    ensures r.Some? && v == TracingVisitor ==> r.value.useStatements == ["use tracing"] && r.value.additionalCode == []
    ensures r.Some? && v == SinceVisitor ==> r.value.additionalCode == [SinceComment(annotation)] && r.value.useStatements == []
  {
    if v == TracingVisitor && hook == Visitor.Hook.VisitInterface {
      var c := TracingVisitInterface(annotation);
      r := Some(c);
    } else if v == SinceVisitor && hook == Visitor.Hook.VisitInterface {
      var c := SinceVisitInterface(annotation);
      r := Some(c);
    } else {
      r := Visitor.DefaultHook(hook, annotation);
    }
  }
}
