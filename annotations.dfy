/**
 * Annotation extraction of crates/rust/src/annotations.rs: read-only queries
 * over a node's annotations, an ordered list of (language, key-value map)
 * pairs. The combined map lets the LAST matching entry win a key; the single
 * value lookup lets the FIRST one win.
 */
module Annotations {
  import opened Options

  /** A node's annotations in source order: the language they target and their key-value payload. */
  type AnnotationList = seq<(string, map<string, string>)>

  /** The value of key in m, if any. */
  function Lookup(m: map<string, string>, key: string): Option<string>
  {
    if key in m then Some(m[key]) else None
  }

  /** Entry i targets language and sets key. */
  ghost predicate SetsKey(annotations: AnnotationList, i: int, language: string, key: string)
    requires 0 <= i < |annotations|
  {
    annotations[i].0 == language && key in annotations[i].1
  }

  /** The matching maps folded in list order, each one overwriting the keys it shares with the earlier ones. */
  function Combined(annotations: AnnotationList, language: string): map<string, string>
  {
    if annotations == [] then map[]
    else
      var n := |annotations| - 1;
      var earlier := Combined(annotations[..n], language);
      if annotations[n].0 == language then earlier + annotations[n].1 else earlier
  }

  /** Folds the maps of every entry for language into one map, later entries overwriting earlier ones. */
  method GetAllAnnotationsForLanguage(annotations: AnnotationList, language: string) returns (combined: map<string, string>)
    ensures combined == Combined(annotations, language)
  {
    combined := map[];
    for i := 0 to |annotations|
      invariant combined == Combined(annotations[..i], language)
    {
      var (lang, m) := annotations[i];
      if lang == language {
        combined := combined + m;
      }
      assert annotations[..i + 1][..i] == annotations[..i];
    }
    assert annotations[..|annotations|] == annotations;
  }

  /** The value of key in the first entry for language that sets it. */
  function FirstValue(annotations: AnnotationList, language: string, key: string): Option<string>
  {
    if annotations == [] then None
    else if annotations[0].0 == language && key in annotations[0].1 then Some(annotations[0].1[key])
    else FirstValue(annotations[1..], language, key)
  }

  /** Scans the entries in order and returns key's value from the first entry for language that has it. */
  method GetAnnotationValue(annotations: AnnotationList, language: string, key: string) returns (r: Option<string>)
    ensures r == FirstValue(annotations, language, key)
  {
    for i := 0 to |annotations|
      invariant FirstValue(annotations[i..], language, key) == FirstValue(annotations, language, key)
    {
      var (lang, m) := annotations[i];
      if lang == language {
        if key in m {
          return Some(m[key]);
        }
      }
      assert annotations[i..][1..] == annotations[i + 1..];
    }
    return None;
  }

  /** Some entry targets language. */
  function HasAnnotationsForLanguage(annotations: AnnotationList, language: string): (r: bool)
    ensures r <==> exists i | 0 <= i < |annotations| :: annotations[i].0 == language
  {
    annotations != [] && (annotations[0].0 == language || HasAnnotationsForLanguage(annotations[1..], language))
  }

  /** The combined map has exactly the keys that some entry for language sets; other languages contribute nothing. */
  lemma {:induction false} CombinedKeys(annotations: AnnotationList, language: string, key: string)
    ensures key in Combined(annotations, language) <==> exists i | 0 <= i < |annotations| :: SetsKey(annotations, i, language, key)
  {
    if annotations != [] {
      var n := |annotations| - 1;
      var earlier := Combined(annotations[..n], language);
      var lastSets := SetsKey(annotations, n, language, key);
      assert key in Combined(annotations, language) <==> key in earlier || lastSets;
      CombinedKeys(annotations[..n], language, key);
      assert forall i | 0 <= i < n :: SetsKey(annotations[..n], i, language, key) == SetsKey(annotations, i, language, key);
      assert (exists i | 0 <= i < |annotations| :: SetsKey(annotations, i, language, key))
        <==> (exists i | 0 <= i < n :: SetsKey(annotations, i, language, key)) || lastSets;
    }
  }

  /** On a key set by several entries for language, the combined map holds the value of the LAST of them. */
  lemma {:induction false} CombinedLastWins(annotations: AnnotationList, language: string, key: string, i: int)
    requires 0 <= i < |annotations| && SetsKey(annotations, i, language, key)
    requires forall j | i < j < |annotations| :: !SetsKey(annotations, j, language, key)
    ensures key in Combined(annotations, language)
    ensures Combined(annotations, language)[key] == annotations[i].1[key]
  {
    var n := |annotations| - 1;
    if i < n {
      assert forall j | i <= j < n :: SetsKey(annotations[..n], j, language, key) == SetsKey(annotations, j, language, key);
      assert !SetsKey(annotations, n, language, key);
      CombinedLastWins(annotations[..n], language, key, i);
    }
  }

  /** With no entry for language, the combined map is empty. */
  lemma {:induction false} CombinedOfNone(annotations: AnnotationList, language: string)
    requires !HasAnnotationsForLanguage(annotations, language)
    ensures Combined(annotations, language) == map[]
  {
    if annotations != [] {
      var n := |annotations| - 1;
      assert forall i | 0 <= i < n :: annotations[..n][i] == annotations[i];
      CombinedOfNone(annotations[..n], language);
    }
  }

  /** The lookup returns the value of the FIRST entry for language that sets key. */
  lemma {:induction false} FirstValueFirstWins(annotations: AnnotationList, language: string, key: string, i: int)
    requires 0 <= i < |annotations| && SetsKey(annotations, i, language, key)
    requires forall j | 0 <= j < i :: !SetsKey(annotations, j, language, key)
    ensures FirstValue(annotations, language, key) == Some(annotations[i].1[key])
  {
    if i > 0 {
      assert forall j | 0 <= j < i :: SetsKey(annotations[1..], j, language, key) == SetsKey(annotations, j + 1, language, key);
      assert !SetsKey(annotations, 0, language, key);
      FirstValueFirstWins(annotations[1..], language, key, i - 1);
    }
  }

  /** The lookup finds nothing exactly when no entry for language sets key. */
  lemma {:induction false} FirstValueNone(annotations: AnnotationList, language: string, key: string)
    ensures FirstValue(annotations, language, key) == None <==> forall i | 0 <= i < |annotations| :: !SetsKey(annotations, i, language, key)
  {
    if annotations != [] {
      var tail := annotations[1..];
      FirstValueNone(tail, language, key);
      assert forall i | 1 <= i < |annotations| :: SetsKey(annotations, i, language, key) == SetsKey(tail, i - 1, language, key);
      assert (forall i | 0 <= i < |tail| :: !SetsKey(tail, i, language, key))
        <==> (forall i | 1 <= i < |annotations| :: !SetsKey(annotations, i, language, key)) by {
        assert forall i | 0 <= i < |tail| :: SetsKey(tail, i, language, key) == SetsKey(annotations, i + 1, language, key);
      }
      assert FirstValue(annotations, language, key) == None
        <==> !SetsKey(annotations, 0, language, key) && FirstValue(tail, language, key) == None;
      assert (forall i | 0 <= i < |annotations| :: !SetsKey(annotations, i, language, key))
        <==> !SetsKey(annotations, 0, language, key) && (forall i | 1 <= i < |annotations| :: !SetsKey(annotations, i, language, key));
    }
  }

  /** The list in reverse order. */
  function Reversed<T>(s: seq<T>): (r: seq<T>)
    ensures |r| == |s|
  {
    if s == [] then [] else Reversed(s[1..]) + [s[0]]
  }

  /**
   * The two queries use opposite precedence: the first-match lookup is the
   * combined map of the list read backwards.
   */
  lemma {:induction false} FirstValueIsCombinedReversed(annotations: AnnotationList, language: string, key: string)
    ensures FirstValue(annotations, language, key) == Lookup(Combined(Reversed(annotations), language), key)
  {
    if annotations != [] {
      var tail := Reversed(annotations[1..]);
      var r := Reversed(annotations);
      assert r[..|r| - 1] == tail;
      assert r[|r| - 1] == annotations[0];
      FirstValueIsCombinedReversed(annotations[1..], language, key);
    }
  }

  /** When exactly one entry for language sets key, the two queries agree on its value. */
  lemma LookupsAgreeOnSingleSetter(annotations: AnnotationList, language: string, key: string, i: int)
    requires 0 <= i < |annotations| && SetsKey(annotations, i, language, key)
    requires forall j | 0 <= j < |annotations| && j != i :: !SetsKey(annotations, j, language, key)
    ensures key in Combined(annotations, language)
    ensures FirstValue(annotations, language, key) == Some(Combined(annotations, language)[key])
  {
    FirstValueFirstWins(annotations, language, key, i);
    CombinedLastWins(annotations, language, key, i);
  }

  /** Two entries setting the same key: the lookup sees the first value, the combined map keeps the second. */
  lemma LookupsDisagreeOnRepeatedKey(first: string, second: string)
    requires first != second
    ensures var annotations := [("rust", map["derive" := first]), ("rust", map["derive" := second])];
      && FirstValue(annotations, "rust", "derive") == Some(first)
      && Combined(annotations, "rust")["derive"] == second
  {
    var annotations := [("rust", map["derive" := first]), ("rust", map["derive" := second])];
    assert annotations[..1] == [("rust", map["derive" := first])];
    assert annotations[..1][..0] == [];
  }

  /** With no entry for language, both queries come back empty. */
  lemma NothingForLanguage(annotations: AnnotationList, language: string, key: string)
    requires !HasAnnotationsForLanguage(annotations, language)
    ensures Combined(annotations, language) == map[]
    ensures FirstValue(annotations, language, key) == None
  {
    CombinedOfNone(annotations, language);
    FirstValueNone(annotations, language, key);
  }
}
