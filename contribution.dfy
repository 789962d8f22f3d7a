/**
 * The five accumulators of crates/rust/src/annotation_visitor/contribution.rs:
 * builders that a visitor fills through add_* calls, each call pushing one raw
 * source fragment onto the end of one list. Every class keeps a ghost log of
 * its add_* calls; Valid() says each list is exactly what its calls pushed, in
 * call order, so "is_empty" means "no add_* call was ever made".
 */
module Contribution {
  import opened Accumulator

  /** Contributions for a type definition (record, variant, enum, flags, resource). */
  class TypeContribution {
    var attributes: seq<string>
    var derives: seq<string>
    var docComments: seq<string>
    var additionalCode: seq<string>
    /** The add_* calls made on this object, in order. */
    ghost var log: seq<Add>

    ghost predicate Valid()
      reads this
    {
      && Within(log, {AttributeList, DeriveList, DocCommentList, CodeList})
      && attributes == Appended(log, AttributeList)
      && derives == Appended(log, DeriveList)
      && docComments == Appended(log, DocCommentList)
      && additionalCode == Appended(log, CodeList)
    }

    constructor ()
      ensures Valid() && log == []
      ensures attributes == [] && derives == [] && docComments == [] && additionalCode == []
      ensures IsEmpty()
    {
      attributes, derives, docComments, additionalCode := [], [], [], [];
      log := [];
    }

    method AddAttribute(attr: string)
      requires Valid()
      modifies this
      ensures Valid() && log == old(log) + [Add(AttributeList, attr)]
      ensures attributes == old(attributes) + [attr]
      ensures derives == old(derives) && docComments == old(docComments) && additionalCode == old(additionalCode)
      ensures !IsEmpty()
    {
      AppendedSnoc(log, Add(AttributeList, attr));
      attributes := attributes + [attr];
      log := log + [Add(AttributeList, attr)];
    }

    method AddDerive(derive: string)
      requires Valid()
      modifies this
      ensures Valid() && log == old(log) + [Add(DeriveList, derive)]
      ensures derives == old(derives) + [derive]
      ensures attributes == old(attributes) && docComments == old(docComments) && additionalCode == old(additionalCode)
      ensures !IsEmpty()
    {
      AppendedSnoc(log, Add(DeriveList, derive));
      derives := derives + [derive];
      log := log + [Add(DeriveList, derive)];
    }

    method AddDocComment(comment: string)
      requires Valid()
      modifies this
      ensures Valid() && log == old(log) + [Add(DocCommentList, comment)]
      ensures docComments == old(docComments) + [comment]
      ensures attributes == old(attributes) && derives == old(derives) && additionalCode == old(additionalCode)
      ensures !IsEmpty()
    {
      AppendedSnoc(log, Add(DocCommentList, comment));
      docComments := docComments + [comment];
      log := log + [Add(DocCommentList, comment)];
    }

    method AddCode(code: string)
      requires Valid()
      modifies this
      ensures Valid() && log == old(log) + [Add(CodeList, code)]
      ensures additionalCode == old(additionalCode) + [code]
      ensures attributes == old(attributes) && derives == old(derives) && docComments == old(docComments)
      ensures !IsEmpty()
    {
      AppendedSnoc(log, Add(CodeList, code));
      additionalCode := additionalCode + [code];
      log := log + [Add(CodeList, code)];
    }

    /** Every attribute added so far, in call order. */
    function Attributes(): (r: seq<string>)
      reads this
      ensures Valid() ==> r == Appended(log, AttributeList)
    {
      attributes
    }

    /** Every derive added so far, in call order. */
    function Derives(): (r: seq<string>)
      reads this
      ensures Valid() ==> r == Appended(log, DeriveList)
    {
      derives
    }

    /** Every doc-comment line added so far, in call order. */
    function DocComments(): (r: seq<string>)
      reads this
      ensures Valid() ==> r == Appended(log, DocCommentList)
    {
      docComments
    }

    /** Every code block added so far, in call order. */
    function AdditionalCode(): (r: seq<string>)
      reads this
      ensures Valid() ==> r == Appended(log, CodeList)
    {
      additionalCode
    }

    /** No list holds anything: exactly when no add_* call was made. */
    predicate IsEmpty()
      reads this
      ensures Valid() ==> (IsEmpty() <==> log == [])
    {
      FirstAddShows(log);
      attributes == [] && derives == [] && docComments == [] && additionalCode == []
    }
  }

  /** Contributions for one field of a record. */
  class FieldContribution {
    var attributes: seq<string>
    var docComments: seq<string>
    ghost var log: seq<Add>

    ghost predicate Valid()
      reads this
    {
      && Within(log, {AttributeList, DocCommentList})
      && attributes == Appended(log, AttributeList)
      && docComments == Appended(log, DocCommentList)
    }

    constructor ()
      ensures Valid() && log == []
      ensures attributes == [] && docComments == []
      ensures IsEmpty()
    {
      attributes, docComments := [], [];
      log := [];
    }

    method AddAttribute(attr: string)
      requires Valid()
      modifies this
      ensures Valid() && log == old(log) + [Add(AttributeList, attr)]
      ensures attributes == old(attributes) + [attr] && docComments == old(docComments)
      ensures !IsEmpty()
    {
      AppendedSnoc(log, Add(AttributeList, attr));
      attributes := attributes + [attr];
      log := log + [Add(AttributeList, attr)];
    }

    method AddDocComment(comment: string)
      requires Valid()
      modifies this
      ensures Valid() && log == old(log) + [Add(DocCommentList, comment)]
      ensures docComments == old(docComments) + [comment] && attributes == old(attributes)
      ensures !IsEmpty()
    {
      AppendedSnoc(log, Add(DocCommentList, comment));
      docComments := docComments + [comment];
      log := log + [Add(DocCommentList, comment)];
    }

    /** Every attribute added so far, in call order. */
    function Attributes(): (r: seq<string>)
      reads this
      ensures Valid() ==> r == Appended(log, AttributeList)
    {
      attributes
    }

    /** Every doc-comment line added so far, in call order. */
    function DocComments(): (r: seq<string>)
      reads this
      ensures Valid() ==> r == Appended(log, DocCommentList)
    {
      docComments
    }

    /** Both lists are empty: exactly when no add_* call was made. */
    predicate IsEmpty()
      reads this
      ensures Valid() ==> (IsEmpty() <==> log == [])
    {
      FirstAddShows(log);
      attributes == [] && docComments == []
    }
  }

  /** Contributions for one case of a variant or enum. */
  class VariantCaseContribution {
    var attributes: seq<string>
    var docComments: seq<string>
    ghost var log: seq<Add>

    ghost predicate Valid()
      reads this
    {
      && Within(log, {AttributeList, DocCommentList})
      && attributes == Appended(log, AttributeList)
      && docComments == Appended(log, DocCommentList)
    }

    constructor ()
      ensures Valid() && log == []
      ensures attributes == [] && docComments == []
      ensures IsEmpty()
    {
      attributes, docComments := [], [];
      log := [];
    }

    method AddAttribute(attr: string)
      requires Valid()
      modifies this
      ensures Valid() && log == old(log) + [Add(AttributeList, attr)]
      ensures attributes == old(attributes) + [attr] && docComments == old(docComments)
      ensures !IsEmpty()
    {
      AppendedSnoc(log, Add(AttributeList, attr));
      attributes := attributes + [attr];
      log := log + [Add(AttributeList, attr)];
    }

    method AddDocComment(comment: string)
      requires Valid()
      modifies this
      ensures Valid() && log == old(log) + [Add(DocCommentList, comment)]
      ensures docComments == old(docComments) + [comment] && attributes == old(attributes)
      ensures !IsEmpty()
    {
      AppendedSnoc(log, Add(DocCommentList, comment));
      docComments := docComments + [comment];
      log := log + [Add(DocCommentList, comment)];
    }

    /** Every attribute added so far, in call order. */
    function Attributes(): (r: seq<string>)
      reads this
      ensures Valid() ==> r == Appended(log, AttributeList)
    {
      attributes
    }

    /** Every doc-comment line added so far, in call order. */
    function DocComments(): (r: seq<string>)
      reads this
      ensures Valid() ==> r == Appended(log, DocCommentList)
    {
      docComments
    }

    /** Both lists are empty: exactly when no add_* call was made. */
    predicate IsEmpty()
      reads this
      ensures Valid() ==> (IsEmpty() <==> log == [])
    {
      FirstAddShows(log);
      attributes == [] && docComments == []
    }
  }

  /** Contributions for a function: attributes, doc lines, and lines spliced before and after its body. */
  class FunctionContribution {
    var attributes: seq<string>
    var docComments: seq<string>
    var bodyPrefix: seq<string>
    var bodySuffix: seq<string>
    ghost var log: seq<Add>

    ghost predicate Valid()
      reads this
    {
      && Within(log, {AttributeList, DocCommentList, PrefixList, SuffixList})
      && attributes == Appended(log, AttributeList)
      && docComments == Appended(log, DocCommentList)
      && bodyPrefix == Appended(log, PrefixList)
      && bodySuffix == Appended(log, SuffixList)
    }

    constructor ()
      ensures Valid() && log == []
      ensures attributes == [] && docComments == [] && bodyPrefix == [] && bodySuffix == []
      ensures IsEmpty()
    {
      attributes, docComments, bodyPrefix, bodySuffix := [], [], [], [];
      log := [];
    }

    method AddAttribute(attr: string)
      requires Valid()
      modifies this
      ensures Valid() && log == old(log) + [Add(AttributeList, attr)]
      ensures attributes == old(attributes) + [attr]
      ensures docComments == old(docComments) && bodyPrefix == old(bodyPrefix) && bodySuffix == old(bodySuffix)
      ensures !IsEmpty()
    {
      AppendedSnoc(log, Add(AttributeList, attr));
      attributes := attributes + [attr];
      log := log + [Add(AttributeList, attr)];
    }

    method AddDocComment(comment: string)
      requires Valid()
      modifies this
      ensures Valid() && log == old(log) + [Add(DocCommentList, comment)]
      ensures docComments == old(docComments) + [comment]
      ensures attributes == old(attributes) && bodyPrefix == old(bodyPrefix) && bodySuffix == old(bodySuffix)
      ensures !IsEmpty()
    {
      AppendedSnoc(log, Add(DocCommentList, comment));
      docComments := docComments + [comment];
      log := log + [Add(DocCommentList, comment)];
    }

    /**
     * Despite its name, pushes onto the END of the prologue, so repeated
     * calls run in call order.
     */
    method PrependBody(code: string)
      requires Valid()
      modifies this
      ensures Valid() && log == old(log) + [Add(PrefixList, code)]
      ensures bodyPrefix == old(bodyPrefix) + [code]
      ensures attributes == old(attributes) && docComments == old(docComments) && bodySuffix == old(bodySuffix)
      ensures !IsEmpty()
    {
      AppendedSnoc(log, Add(PrefixList, code));
      bodyPrefix := bodyPrefix + [code];
      log := log + [Add(PrefixList, code)];
    }

    method AppendBody(code: string)
      requires Valid()
      modifies this
      ensures Valid() && log == old(log) + [Add(SuffixList, code)]
      ensures bodySuffix == old(bodySuffix) + [code]
      ensures attributes == old(attributes) && docComments == old(docComments) && bodyPrefix == old(bodyPrefix)
      ensures !IsEmpty()
    {
      AppendedSnoc(log, Add(SuffixList, code));
      bodySuffix := bodySuffix + [code];
      log := log + [Add(SuffixList, code)];
    }

    /** Every attribute added so far, in call order. */
    function Attributes(): (r: seq<string>)
      reads this
      ensures Valid() ==> r == Appended(log, AttributeList)
    {
      attributes
    }

    /** Every doc-comment line added so far, in call order. */
    function DocComments(): (r: seq<string>)
      reads this
      ensures Valid() ==> r == Appended(log, DocCommentList)
    {
      docComments
    }

    /** Every prologue line added so far, in call order. */
    function BodyPrefix(): (r: seq<string>)
      reads this
      ensures Valid() ==> r == Appended(log, PrefixList)
    {
      bodyPrefix
    }

    /** Every epilogue line added so far, in call order. */
    function BodySuffix(): (r: seq<string>)
      reads this
      ensures Valid() ==> r == Appended(log, SuffixList)
    {
      bodySuffix
    }

    /** All four lists are empty: exactly when no add_* call was made. */
    predicate IsEmpty()
      reads this
      ensures Valid() ==> (IsEmpty() <==> log == [])
    {
      FirstAddShows(log);
      attributes == [] && docComments == [] && bodyPrefix == [] && bodySuffix == []
    }
  }

  /** Contributions for a module: code blocks and use statements. */
  class ModuleContribution {
    var additionalCode: seq<string>
    var useStatements: seq<string>
    ghost var log: seq<Add>

    ghost predicate Valid()
      reads this
    {
      && Within(log, {CodeList, UseList})
      && additionalCode == Appended(log, CodeList)
      && useStatements == Appended(log, UseList)
    }

    constructor ()
      ensures Valid() && log == []
      ensures additionalCode == [] && useStatements == []
      ensures IsEmpty()
    {
      additionalCode, useStatements := [], [];
      log := [];
    }

    method AddCode(code: string)
      requires Valid()
      modifies this
      ensures Valid() && log == old(log) + [Add(CodeList, code)]
      ensures additionalCode == old(additionalCode) + [code] && useStatements == old(useStatements)
      ensures !IsEmpty()
    {
      AppendedSnoc(log, Add(CodeList, code));
      additionalCode := additionalCode + [code];
      log := log + [Add(CodeList, code)];
    }

    method AddUse(useStmt: string)
      requires Valid()
      modifies this
      ensures Valid() && log == old(log) + [Add(UseList, useStmt)]
      ensures useStatements == old(useStatements) + [useStmt] && additionalCode == old(additionalCode)
      ensures !IsEmpty()
    {
      AppendedSnoc(log, Add(UseList, useStmt));
      useStatements := useStatements + [useStmt];
      log := log + [Add(UseList, useStmt)];
    }

    /** Every code block added so far, in call order. */
    function AdditionalCode(): (r: seq<string>)
      reads this
      ensures Valid() ==> r == Appended(log, CodeList)
    {
      additionalCode
    }

    /** Every use statement added so far, in call order. */
    function UseStatements(): (r: seq<string>)
      reads this
      ensures Valid() ==> r == Appended(log, UseList)
    {
      useStatements
    }

    /** Both lists are empty: exactly when no add_* call was made. */
    predicate IsEmpty()
      reads this
      ensures Valid() ==> (IsEmpty() <==> log == [])
    {
      FirstAddShows(log);
      additionalCode == [] && useStatements == []
    }
  }
}
