/**
 * The two operations on Rust's str that the example hooks use (split on a
 * character, trim); the substring test (contains) in which the integration
 * tests state what the hooks emit; and the join and prefix/suffix parse that
 * state round trips of that output.
 */
module Text {
  import opened Options

  /** Rust's char::is_whitespace: the characters with the Unicode White_Space property. */
  predicate IsWhitespace(c: char)
  {
    || ('\t' <= c <= '\r')
    || c == ' ' || c == '\U{0085}' || c == '\U{00A0}' || c == '\U{1680}'
    || ('\U{2000}' <= c <= '\U{200A}')
    || c == '\U{2028}' || c == '\U{2029}' || c == '\U{202F}' || c == '\U{205F}' || c == '\U{3000}'
  }

  /** Neither end of s is whitespace: what str::trim leaves. */
  predicate IsTrimmed(s: string)
  {
    s == [] || (!IsWhitespace(s[0]) && !IsWhitespace(s[|s| - 1]))
  }

  /** How many whitespace characters s starts with. */
  function LeadingWhitespace(s: string): (n: nat)
    ensures n <= |s|
    ensures forall k | 0 <= k < n :: IsWhitespace(s[k])
    ensures n < |s| ==> !IsWhitespace(s[n])
  {
    if s != [] && IsWhitespace(s[0]) then 1 + LeadingWhitespace(s[1..]) else 0
  }

  /** How many whitespace characters s ends with. */
  function TrailingWhitespace(s: string): (n: nat)
    ensures n <= |s|
    ensures forall k | |s| - n <= k < |s| :: IsWhitespace(s[k])
    ensures n < |s| ==> !IsWhitespace(s[|s| - n - 1])
  {
    if s != [] && IsWhitespace(s[|s| - 1]) then 1 + TrailingWhitespace(s[..|s| - 1]) else 0
  }

  /** str::trim: what is left of s after dropping the whitespace at both ends. */
  function Trim(s: string): (r: string)
    ensures IsTrimmed(r)
  {
    var t := s[LeadingWhitespace(s)..];
    t[..|t| - TrailingWhitespace(t)]
  }

  /** Trim adds no character: one absent from s is absent from its trim. */
  lemma TrimKeepsOut(s: string, c: char)
    requires c !in s
    ensures c !in Trim(s)
  {
    var t := s[LeadingWhitespace(s)..];
    assert c !in t;
  }

  /** Trim keeps a slice of s and cuts only whitespace on either side of it. */
  lemma TrimIsSlice(s: string)
    ensures exists i, j | 0 <= i <= j <= |s| ::
      (&& Trim(s) == s[i..j]
       && (forall k | 0 <= k < i :: IsWhitespace(s[k]))
       && (forall k | j <= k < |s| :: IsWhitespace(s[k])))
  {
    var i := LeadingWhitespace(s);
    var t := s[i..];
    var j := i + |t| - TrailingWhitespace(t);
    assert Trim(s) == s[i..j];
    assert forall k | j <= k < |s| :: s[k] == t[k - i];
  }

  /** A string with no whitespace at either end is its own trim, also after one leading space. */
  lemma TrimOfPadded(s: string)
    requires s != [] && IsTrimmed(s)
    ensures Trim(s) == s
    ensures Trim([' '] + s) == s
  {
    assert ([' '] + s)[1..] == s;
  }

  /** str::split on one character: the pieces between separators, never none. */
  function Split(s: string, sep: char): (pieces: seq<string>)
    ensures |pieces| >= 1
    ensures forall i | 0 <= i < |pieces| :: sep !in pieces[i]
    decreases |s|
  {
    if s == [] then [[]]
    else
      var rest := Split(s[1..], sep);
      if s[0] == sep then [[]] + rest
      else [[s[0]] + rest[0]] + rest[1..]
  }

  /** The pieces of parts with glue between each two. */
  function Join(parts: seq<string>, glue: string): string
  {
    if |parts| == 0 then []
    else if |parts| == 1 then parts[0]
    else parts[0] + glue + Join(parts[1..], glue)
  }

  /** A string without the separator is one piece. */
  lemma {:induction false} SplitNoSep(a: string, sep: char)
    requires sep !in a
    ensures Split(a, sep) == [a]
    decreases |a|
  {
    if a != [] {
      SplitNoSep(a[1..], sep);
      assert [a[0]] + a[1..] == a;
    }
  }

  /** A separator-free piece followed by a separator splits off as the first piece. */
  lemma {:induction false} SplitAfterPiece(a: string, sep: char, b: string)
    requires sep !in a
    ensures Split(a + [sep] + b, sep) == [a] + Split(b, sep)
    decreases |a|
  {
    var s := a + [sep] + b;
    if a == [] {
      assert s[1..] == b;
    } else {
      assert s[1..] == a[1..] + [sep] + b;
      SplitAfterPiece(a[1..], sep, b);
      assert [a[0]] + a[1..] == a;
    }
  }

  /** Joining the pieces back with the separator gives the string split. */
  lemma {:induction false} JoinSplit(s: string, sep: char)
    ensures Join(Split(s, sep), [sep]) == s
    decreases |s|
  {
    if s != [] {
      var rest := Split(s[1..], sep);
      JoinSplit(s[1..], sep);
      if s[0] == sep {
        assert ([[]] + rest)[1..] == rest;
        assert Join([[]] + rest, [sep]) == [] + [sep] + Join(rest, [sep]);
      } else {
        var pieces := [[s[0]] + rest[0]] + rest[1..];
        assert pieces[1..] == rest[1..];
        if |rest| == 1 {
          assert Join(rest, [sep]) == rest[0];
        } else {
          assert Join(rest, [sep]) == rest[0] + [sep] + Join(rest[1..], [sep]);
        }
        assert Join(pieces, [sep]) == [s[0]] + Join(rest, [sep]);
      }
    }
  }

  /** Splitting a join of separator-free pieces gives the pieces back. */
  lemma {:induction false} SplitJoin(parts: seq<string>, sep: char)
    requires |parts| >= 1
    requires forall i | 0 <= i < |parts| :: sep !in parts[i]
    ensures Split(Join(parts, [sep]), sep) == parts
  {
    if |parts| == 1 {
      SplitNoSep(parts[0], sep);
    } else {
      SplitJoin(parts[1..], sep);
      SplitAfterPiece(parts[0], sep, Join(parts[1..], [sep]));
      assert [parts[0]] + parts[1..] == parts;
    }
  }

  /** w occurs in s starting at index i. */
  predicate OccursAt(s: string, w: string, i: int)
  {
    0 <= i && i + |w| <= |s| && s[i..i + |w|] == w
  }

  /** str::contains for a string pattern. */
  predicate Contains(s: string, w: string)
  {
    exists i | 0 <= i <= |s| - |w| :: OccursAt(s, w, i)
  }

  /**
   * A pattern whose first character occurs in neither frame, and that cannot
   * run from the middle part into the closing frame, occurs in a framed
   * string exactly when it occurs in the middle part.
   */
  lemma ContainsFramed(p: string, x: string, q: string, w: string)
    requires w != [] && w[0] !in p && w[0] !in q
    requires q != [] ==> q[0] !in w
    ensures Contains(p + x + q, w) <==> Contains(x, w)
  {
    var line := p + x + q;
    if Contains(x, w) {
      var i :| 0 <= i <= |x| - |w| && OccursAt(x, w, i);
      assert line[|p| + i..|p| + i + |w|] == x[i..i + |w|];
      assert OccursAt(line, w, |p| + i);
    }
    if Contains(line, w) {
      var i :| 0 <= i <= |line| - |w| && OccursAt(line, w, i);
      assert line[i..i + |w|] == w;
      assert line[i] == w[0] by { assert line[i..i + |w|][0] == line[i]; }
      assert |p| <= i < |p| + |x|;
      assert forall m | i <= m < i + |w| :: line[m] == w[m - i];
      assert q != [] ==> line[|p| + |x|] == q[0];
      assert i + |w| <= |p| + |x|;
      assert x[i - |p|..i - |p| + |w|] == line[i..i + |w|];
      assert OccursAt(x, w, i - |p|);
    }
  }

  /** The text between prefix and suffix, when s is framed by them. */
  function Between(s: string, prefix: string, suffix: string): (r: Option<string>)
    ensures r.Some? ==> s == prefix + r.value + suffix
  {
    if |prefix| + |suffix| <= |s| && s[..|prefix|] == prefix && s[|s| - |suffix|..] == suffix
    then Some(s[|prefix|..|s| - |suffix|])
    else None
  }

  /** Framing x and reading it back between the same frames gives x. */
  lemma BetweenWrapped(prefix: string, x: string, suffix: string)
    ensures Between(prefix + x + suffix, prefix, suffix) == Some(x)
  {
    var s := prefix + x + suffix;
    assert s[..|prefix|] == prefix;
    assert s[|s| - |suffix|..] == suffix;
    assert s[|prefix|..|s| - |suffix|] == x;
  }
}
