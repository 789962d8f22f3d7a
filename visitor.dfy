/**
 * The generic visitor of crates/core/src/visitor.rs: one hook per schema node
 * kind, each answering with an optional contribution of the kind its family
 * binds to it and answering with nothing unless a visitor overrides it; and the
 * lookup of a visitor by annotation target that records a warning on a miss.
 */
module Visitor {
  import opened Options
  import opened Text

  /** The five members of a backend's contribution family (ContributionTypes). */
  datatype ContributionKind = TypeKind | FieldKind | VariantCaseKind | FunctionKind | ModuleKind

  /** The hooks, one per schema node kind. */
  datatype Hook =
    | VisitRecord | VisitVariant | VisitEnum | VisitFlags | VisitResource
    | VisitField | VisitVariantCase
    | VisitFunction
    | VisitInterface | VisitWorld
  {
    /** The member of the family the hook answers with. */
    function Returns(): ContributionKind
    {
      match this
      case VisitRecord | VisitVariant | VisitEnum | VisitFlags | VisitResource => TypeKind
      case VisitField => FieldKind
      case VisitVariantCase => VariantCaseKind
      case VisitFunction => FunctionKind
      case VisitInterface | VisitWorld => ModuleKind
    }
  }

  /** What every hook answers when a visitor does not override it. */
  function DefaultHook<C>(hook: Hook, annotation: string): Option<C>
  {
    None
  }

  const WarningPrefix := "cargo::warning=Warning: No visitor registered for annotation target '"
  const WarningSuffix := "'"

  /** The line printed when no visitor is registered under target; the target reads back from between its fixed frames. */
  function Warning(target: string): (line: string)
    ensures Between(line, WarningPrefix, WarningSuffix) == Some(target)
  {
    BetweenWrapped(WarningPrefix, target, WarningSuffix);
    WarningPrefix + target + WarningSuffix
  }

  /** Distinct targets give distinct warnings: a warning names exactly one target. */
  lemma WarningNamesTarget(a: string, b: string)
    ensures Warning(a) == Warning(b) <==> a == b
  {
    BetweenWrapped(WarningPrefix, a, WarningSuffix);
    BetweenWrapped(WarningPrefix, b, WarningSuffix);
  }

  /**
   * Visitors keyed by annotation target. The warnings a lookup prints are kept
   * as a ghost log of lines.
   */
  class Registry<V> {
    var visitors: map<string, V>
    ghost var diagnostics: seq<string>

    constructor (visitors: map<string, V>)
      ensures this.visitors == visitors && diagnostics == []
    {
      this.visitors := visitors;
      diagnostics := [];
    }

    /**
     * The visitor registered under target; on a miss, nothing, and one
     * warning naming target. The registry itself is left as it was.
     */
    method FindVisitorWithWarning(target: string) returns (r: Option<V>)
      modifies this`diagnostics
      ensures visitors == old(visitors)
      ensures target in visitors ==> r == Some(visitors[target]) && diagnostics == old(diagnostics)
      ensures target !in visitors ==> r == None && diagnostics == old(diagnostics) + [Warning(target)]
    {
      r := if target in visitors then Some(visitors[target]) else None;
      if r.None? {
        diagnostics := diagnostics + [Warning(target)];
      }
    }
  }
}
