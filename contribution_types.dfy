/**
 * The Rust-backend accumulators of
 * crates/rust/src/annotation_visitor/contribution_types.rs, the set the
 * example visitors return. Same discipline as module Contribution: a ghost log
 * of add_* calls, and every list is what its calls pushed, in call order.
 */
module ContributionTypes {
  import opened Accumulator

  /** Derives and attributes for a type definition. */
  class RustTypeContribution {
    var derives: seq<string>
    var attributes: seq<string>
    ghost var log: seq<Add>

    ghost predicate Valid()
      reads this
    {
      && Within(log, {DeriveList, AttributeList})
      && derives == Appended(log, DeriveList)
      && attributes == Appended(log, AttributeList)
    }

    constructor ()
      ensures Valid() && log == [] && derives == [] && attributes == []
      ensures IsEmpty()
    {
      derives, attributes := [], [];
      log := [];
    }

    method AddDerive(derive: string)
      requires Valid()
      modifies this
      ensures Valid() && log == old(log) + [Add(DeriveList, derive)]
      ensures derives == old(derives) + [derive] && attributes == old(attributes)
      ensures !IsEmpty()
    {
      AppendedSnoc(log, Add(DeriveList, derive));
      derives := derives + [derive];
      log := log + [Add(DeriveList, derive)];
    }

    method AddAttribute(attr: string)
      requires Valid()
      modifies this
      ensures Valid() && log == old(log) + [Add(AttributeList, attr)]
      ensures attributes == old(attributes) + [attr] && derives == old(derives)
      ensures !IsEmpty()
    {
      AppendedSnoc(log, Add(AttributeList, attr));
      attributes := attributes + [attr];
      log := log + [Add(AttributeList, attr)];
    }

    /** Both lists are empty: exactly when no add_* call was made. */
    predicate IsEmpty()
      reads this
      ensures Valid() ==> (IsEmpty() <==> log == [])
    {
      FirstAddShows(log);
      derives == [] && attributes == []
    }
  }

  /** Attributes for one field of a record. */
  class RustFieldContribution {
    var attributes: seq<string>
    ghost var log: seq<Add>

    ghost predicate Valid()
      reads this
    {
      Within(log, {AttributeList}) && attributes == Appended(log, AttributeList)
    }

    constructor ()
      ensures Valid() && log == [] && attributes == []
      ensures IsEmpty()
    {
      attributes := [];
      log := [];
    }

    method AddAttribute(attr: string)
      requires Valid()
      modifies this
      ensures Valid() && log == old(log) + [Add(AttributeList, attr)]
      ensures attributes == old(attributes) + [attr]
      ensures !IsEmpty()
    {
      AppendedSnoc(log, Add(AttributeList, attr));
      attributes := attributes + [attr];
      log := log + [Add(AttributeList, attr)];
    }

    /** The attribute list is empty: exactly when no add_* call was made. */
    predicate IsEmpty()
      reads this
      ensures Valid() ==> (IsEmpty() <==> log == [])
    {
      FirstAddShows(log);
      attributes == []
    }
  }

  /** Attributes for one case of a variant or enum. */
  class RustVariantCaseContribution {
    var attributes: seq<string>
    ghost var log: seq<Add>

    ghost predicate Valid()
      reads this
    {
      Within(log, {AttributeList}) && attributes == Appended(log, AttributeList)
    }

    constructor ()
      ensures Valid() && log == [] && attributes == []
      ensures IsEmpty()
    {
      attributes := [];
      log := [];
    }

    method AddAttribute(attr: string)
      requires Valid()
      modifies this
      ensures Valid() && log == old(log) + [Add(AttributeList, attr)]
      ensures attributes == old(attributes) + [attr]
      ensures !IsEmpty()
    {
      AppendedSnoc(log, Add(AttributeList, attr));
      attributes := attributes + [attr];
      log := log + [Add(AttributeList, attr)];
    }

    /** The attribute list is empty: exactly when no add_* call was made. */
    predicate IsEmpty()
      reads this
      ensures Valid() ==> (IsEmpty() <==> log == [])
    {
      FirstAddShows(log);
      attributes == []
    }
  }

  /** A field contribution holds its attributes in call order: the i-th stored is the i-th added. */
  lemma FieldAttributesInCallOrder(c: RustFieldContribution)
    requires c.Valid()
    ensures c.attributes == Texts(c.log)
  {
    AppendedSingleSlot(c.log, AttributeList);
  }

  /** A case contribution holds its attributes in call order: the i-th stored is the i-th added. */
  lemma CaseAttributesInCallOrder(c: RustVariantCaseContribution)
    requires c.Valid()
    ensures c.attributes == Texts(c.log)
  {
    AppendedSingleSlot(c.log, AttributeList);
  }

  /**
   * Attributes and body-prologue lines for a function. The epilogue list is
   * not declared by the draft this class follows; the example visitors push
   * onto it and build the struct with it, so it is kept here, and IsEmpty
   * keeps to the two lists the draft checks.
   */
  class RustFunctionContribution {
    var attributes: seq<string>
    var bodyPrefix: seq<string>
    var bodySuffix: seq<string>
    ghost var log: seq<Add>

    ghost predicate Valid()
      reads this
    {
      && Within(log, {AttributeList, PrefixList, SuffixList})
      && attributes == Appended(log, AttributeList)
      && bodyPrefix == Appended(log, PrefixList)
      && bodySuffix == Appended(log, SuffixList)
    }

    constructor ()
      ensures Valid() && log == [] && attributes == [] && bodyPrefix == [] && bodySuffix == []
      ensures IsEmpty()
    {
      attributes, bodyPrefix, bodySuffix := [], [], [];
      log := [];
    }

    method AddAttribute(attr: string)
      requires Valid()
      modifies this
      ensures Valid() && log == old(log) + [Add(AttributeList, attr)]
      ensures attributes == old(attributes) + [attr]
      ensures bodyPrefix == old(bodyPrefix) && bodySuffix == old(bodySuffix)
      ensures !IsEmpty()
    {
      AppendedSnoc(log, Add(AttributeList, attr));
      attributes := attributes + [attr];
      log := log + [Add(AttributeList, attr)];
    }

    method AddBodyPrefix(code: string)
      requires Valid()
      modifies this
      ensures Valid() && log == old(log) + [Add(PrefixList, code)]
      ensures bodyPrefix == old(bodyPrefix) + [code]
      ensures attributes == old(attributes) && bodySuffix == old(bodySuffix)
      ensures !IsEmpty()
    {
      AppendedSnoc(log, Add(PrefixList, code));
      bodyPrefix := bodyPrefix + [code];
      log := log + [Add(PrefixList, code)];
    }

    method AddBodySuffix(code: string)
      requires Valid()
      modifies this
      ensures Valid() && log == old(log) + [Add(SuffixList, code)]
      ensures bodySuffix == old(bodySuffix) + [code]
      ensures attributes == old(attributes) && bodyPrefix == old(bodyPrefix)
      ensures IsEmpty() == old(IsEmpty())
    {
      AppendedSnoc(log, Add(SuffixList, code));
      bodySuffix := bodySuffix + [code];
      log := log + [Add(SuffixList, code)];
    }

    /** Attributes and prologue are empty: exactly when every add_* call so far pushed an epilogue line. */
    predicate IsEmpty()
      reads this
      ensures Valid() ==> (IsEmpty() <==> forall i | 0 <= i < |log| :: log[i].slot == SuffixList)
    {
      AppendedEmptyIff(log, AttributeList);
      AppendedEmptyIff(log, PrefixList);
      attributes == [] && bodyPrefix == []
    }
  }

  /** Use statements and code blocks for a module. */
  class RustModuleContribution {
    var useStatements: seq<string>
    var additionalCode: seq<string>
    ghost var log: seq<Add>

    ghost predicate Valid()
      reads this
    {
      && Within(log, {UseList, CodeList})
      && useStatements == Appended(log, UseList)
      && additionalCode == Appended(log, CodeList)
    }

    constructor ()
      ensures Valid() && log == [] && useStatements == [] && additionalCode == []
      ensures IsEmpty()
    {
      useStatements, additionalCode := [], [];
      log := [];
    }

    method AddUse(useStmt: string)
      requires Valid()
      modifies this
      ensures Valid() && log == old(log) + [Add(UseList, useStmt)]
      ensures useStatements == old(useStatements) + [useStmt] && additionalCode == old(additionalCode)
      ensures !IsEmpty()
    {
      AppendedSnoc(log, Add(UseList, useStmt));
      useStatements := useStatements + [useStmt];
      log := log + [Add(UseList, useStmt)];
    }

    method AddCode(code: string)
      requires Valid()
      modifies this
      ensures Valid() && log == old(log) + [Add(CodeList, code)]
      ensures additionalCode == old(additionalCode) + [code] && useStatements == old(useStatements)
      ensures !IsEmpty()
    {
      AppendedSnoc(log, Add(CodeList, code));
      additionalCode := additionalCode + [code];
      log := log + [Add(CodeList, code)];
    }

    /** Both lists are empty: exactly when no add_* call was made. */
    predicate IsEmpty()
      reads this
      ensures Valid() ==> (IsEmpty() <==> log == [])
    {
      FirstAddShows(log);
      useStatements == [] && additionalCode == []
    }
  }
}
