/**
 * The vocabulary shared by every contribution accumulator: each add_* call
 * pushes one raw source fragment onto the end of one named list, and nothing
 * ever removes one. The classes keep a ghost log of their add_* calls, and a
 * list field is always the fragments its calls appended, in call order.
 */
module Accumulator {

  /** The lists a contribution can own. */
  datatype Slot = AttributeList | DeriveList | DocCommentList | CodeList | UseList | PrefixList | SuffixList

  /** One add_* call: the list it pushes onto and the fragment it pushes. */
  datatype Add = Add(slot: Slot, text: string)

  /** The fragments that the calls of log pushed onto slot, in call order. */
  function Appended(log: seq<Add>, slot: Slot): seq<string>
  {
    if log == [] then []
    else
      var last := log[|log| - 1];
      Appended(log[..|log| - 1], slot) + (if last.slot == slot then [last.text] else [])
  }

  /** The fragments of all calls of log, in call order. */
  function Texts(log: seq<Add>): seq<string>
  {
    if log == [] then [] else Texts(log[..|log| - 1]) + [log[|log| - 1].text]
  }

  /** Every call of log pushes onto one of slots. */
  ghost predicate Within(log: seq<Add>, slots: set<Slot>)
  {
    forall i | 0 <= i < |log| :: log[i].slot in slots
  }

  /** One more call extends its own list by its fragment and leaves every other list alone. */
  lemma AppendedSnoc(log: seq<Add>, a: Add)
    ensures forall slot :: Appended(log + [a], slot) == Appended(log, slot) + (if a.slot == slot then [a.text] else [])
  {
    assert (log + [a])[..|log|] == log;
  }

  /** A list is empty exactly when no call pushed onto it. */
  lemma {:induction false} AppendedEmptyIff(log: seq<Add>, slot: Slot)
    ensures Appended(log, slot) == [] <==> forall i | 0 <= i < |log| :: log[i].slot != slot
  {
    if log != [] {
      var n := |log| - 1;
      AppendedEmptyIff(log[..n], slot);
      assert forall i | 0 <= i < n :: log[..n][i] == log[i];
    }
  }

  /** The list of the first call is never empty afterwards: adds are permanent. */
  lemma {:induction false} FirstAddShows(log: seq<Add>)
    ensures log != [] ==> Appended(log, log[0].slot) != []
  {
    if |log| > 1 {
      var n := |log| - 1;
      FirstAddShows(log[..n]);
      assert log[..n][0] == log[0];
    }
  }

  /** When every call pushes onto one list, that list holds all fragments in call order. */
  lemma {:induction false} AppendedSingleSlot(log: seq<Add>, slot: Slot)
    requires forall i | 0 <= i < |log| :: log[i].slot == slot
    ensures Appended(log, slot) == Texts(log)
  {
    if log != [] {
      var n := |log| - 1;
      assert forall i | 0 <= i < n :: log[..n][i] == log[i];
      AppendedSingleSlot(log[..n], slot);
    }
  }
}
