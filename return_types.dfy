/**
 * The reduced draft of the accumulators in
 * crates/rust/src/annotation_visitor/return_types.rs: the same lists as the
 * Rust-backend set, and a function contribution with attributes and a body
 * prologue only.
 */
module ReturnTypes {
  import opened Accumulator

  /** Derives and attributes for a type definition. */
  class TypeContribution {
    var derives: seq<string>
    var attributes: seq<string>
    ghost var log: seq<Add>

    ghost predicate Valid()
      reads this
    {
      && Within(log, {DeriveList, AttributeList})
      && derives == Appended(log, DeriveList)
      && attributes == Appended(log, AttributeList)
    }

    constructor ()
      ensures Valid() && log == [] && derives == [] && attributes == []
      ensures IsEmpty()
    {
      derives, attributes := [], [];
      log := [];
    }

    method AddDerive(derive: string)
      requires Valid()
      modifies this
      ensures Valid() && log == old(log) + [Add(DeriveList, derive)]
      ensures derives == old(derives) + [derive] && attributes == old(attributes)
      ensures !IsEmpty()
    {
      AppendedSnoc(log, Add(DeriveList, derive));
      derives := derives + [derive];
      log := log + [Add(DeriveList, derive)];
    }

    method AddAttribute(attr: string)
      requires Valid()
      modifies this
      ensures Valid() && log == old(log) + [Add(AttributeList, attr)]
      ensures attributes == old(attributes) + [attr] && derives == old(derives)
      ensures !IsEmpty()
    {
      AppendedSnoc(log, Add(AttributeList, attr));
      attributes := attributes + [attr];
      log := log + [Add(AttributeList, attr)];
    }

    /** Both lists are empty: exactly when no add_* call was made. */
    predicate IsEmpty()
      reads this
      ensures Valid() ==> (IsEmpty() <==> log == [])
    {
      FirstAddShows(log);
      derives == [] && attributes == []
    }
  }

  /** Attributes for one field of a record. */
  class FieldContribution {
    var attributes: seq<string>
    ghost var log: seq<Add>

    ghost predicate Valid()
      reads this
    {
      Within(log, {AttributeList}) && attributes == Appended(log, AttributeList)
    }

    constructor ()
      ensures Valid() && log == [] && attributes == []
      ensures IsEmpty()
    {
      attributes := [];
      log := [];
    }

    method AddAttribute(attr: string)
      requires Valid()
      modifies this
      ensures Valid() && log == old(log) + [Add(AttributeList, attr)]
      ensures attributes == old(attributes) + [attr]
      ensures !IsEmpty()
    {
      AppendedSnoc(log, Add(AttributeList, attr));
      attributes := attributes + [attr];
      log := log + [Add(AttributeList, attr)];
    }

    /** The attribute list is empty: exactly when no add_* call was made. */
    predicate IsEmpty()
      reads this
      ensures Valid() ==> (IsEmpty() <==> log == [])
    {
      FirstAddShows(log);
      attributes == []
    }
  }

  /** Attributes for one case of a variant or enum. */
  class VariantCaseContribution {
    var attributes: seq<string>
    ghost var log: seq<Add>

    ghost predicate Valid()
      reads this
    {
      Within(log, {AttributeList}) && attributes == Appended(log, AttributeList)
    }

    constructor ()
      ensures Valid() && log == [] && attributes == []
      ensures IsEmpty()
    {
      attributes := [];
      log := [];
    }

    method AddAttribute(attr: string)
      requires Valid()
      modifies this
      ensures Valid() && log == old(log) + [Add(AttributeList, attr)]
      ensures attributes == old(attributes) + [attr]
      ensures !IsEmpty()
    {
      AppendedSnoc(log, Add(AttributeList, attr));
      attributes := attributes + [attr];
      log := log + [Add(AttributeList, attr)];
    }

    /** The attribute list is empty: exactly when no add_* call was made. */
    predicate IsEmpty()
      reads this
      ensures Valid() ==> (IsEmpty() <==> log == [])
    {
      FirstAddShows(log);
      attributes == []
    }
  }

  /** Attributes and body-prologue lines for a function. */
  class FunctionContribution {
    var attributes: seq<string>
    var bodyPrefix: seq<string>
    ghost var log: seq<Add>

    ghost predicate Valid()
      reads this
    {
      && Within(log, {AttributeList, PrefixList})
      && attributes == Appended(log, AttributeList)
      && bodyPrefix == Appended(log, PrefixList)
    }

    constructor ()
      ensures Valid() && log == [] && attributes == [] && bodyPrefix == []
      ensures IsEmpty()
    {
      attributes, bodyPrefix := [], [];
      log := [];
    }

    method AddAttribute(attr: string)
      requires Valid()
      modifies this
      ensures Valid() && log == old(log) + [Add(AttributeList, attr)]
      ensures attributes == old(attributes) + [attr] && bodyPrefix == old(bodyPrefix)
      ensures !IsEmpty()
    {
      AppendedSnoc(log, Add(AttributeList, attr));
      attributes := attributes + [attr];
      log := log + [Add(AttributeList, attr)];
    }

    method AddBodyPrefix(code: string)
      requires Valid()
      modifies this
      ensures Valid() && log == old(log) + [Add(PrefixList, code)]
      ensures bodyPrefix == old(bodyPrefix) + [code] && attributes == old(attributes)
      ensures !IsEmpty()
    {
      AppendedSnoc(log, Add(PrefixList, code));
      bodyPrefix := bodyPrefix + [code];
      log := log + [Add(PrefixList, code)];
    }

    /** Both lists are empty: exactly when no add_* call was made. */
    predicate IsEmpty()
      reads this
      ensures Valid() ==> (IsEmpty() <==> log == [])
    {
      FirstAddShows(log);
      attributes == [] && bodyPrefix == []
    }
  }

  /** Use statements and code blocks for a module. */
  class ModuleContribution {
    var useStatements: seq<string>
    var additionalCode: seq<string>
    ghost var log: seq<Add>

    ghost predicate Valid()
      reads this
    {
      && Within(log, {UseList, CodeList})
      && useStatements == Appended(log, UseList)
      && additionalCode == Appended(log, CodeList)
    }

    constructor ()
      ensures Valid() && log == [] && useStatements == [] && additionalCode == []
      ensures IsEmpty()
    {
      useStatements, additionalCode := [], [];
      log := [];
    }

    method AddUse(useStmt: string)
      requires Valid()
      modifies this
      ensures Valid() && log == old(log) + [Add(UseList, useStmt)]
      ensures useStatements == old(useStatements) + [useStmt] && additionalCode == old(additionalCode)
      ensures !IsEmpty()
    {
      AppendedSnoc(log, Add(UseList, useStmt));
      useStatements := useStatements + [useStmt];
      log := log + [Add(UseList, useStmt)];
    }

    method AddCode(code: string)
      requires Valid()
      modifies this
      ensures Valid() && log == old(log) + [Add(CodeList, code)]
      ensures additionalCode == old(additionalCode) + [code] && useStatements == old(useStatements)
      ensures !IsEmpty()
    {
      AppendedSnoc(log, Add(CodeList, code));
      additionalCode := additionalCode + [code];
      log := log + [Add(CodeList, code)];
    }

    /** Both lists are empty: exactly when no add_* call was made. */
    predicate IsEmpty()
      reads this
      ensures Valid() ==> (IsEmpty() <==> log == [])
    {
      FirstAddShows(log);
      useStatements == [] && additionalCode == []
    }
  }
}
