/**
 * The .NET string operations the test-project generator relies on, modelled on `seq<char>` with
 * ordinal (culture-independent) comparison and ASCII whitespace and case.
 */
module Text {
  import opened Wrappers

  /** The ASCII characters `char.IsWhiteSpace` accepts: space, tab, line feed, vertical tab, form feed, carriage return. */
  predicate IsWhiteSpace(c: char) {
    c == ' ' || c == '\t' || c == '\n' || c == '\U{B}' || c == '\U{C}' || c == '\r'
  }

  predicate AllWhiteSpace(s: string) {
    forall i :: 0 <= i < |s| ==> IsWhiteSpace(s[i])
  }

  /** The number of whitespace characters at the start of `s`. */
  function LeadingWhiteSpace(s: string): (n: nat)
    ensures n <= |s|
    ensures forall i :: 0 <= i < n ==> IsWhiteSpace(s[i])
    ensures n == |s| || !IsWhiteSpace(s[n])
  {
    if s != [] && IsWhiteSpace(s[0]) then 1 + LeadingWhiteSpace(s[1..]) else 0
  }

  /** The number of whitespace characters at the end of `s`. */
  function TrailingWhiteSpace(s: string): (n: nat)
    ensures n <= |s|
    ensures forall i :: |s| - n <= i < |s| ==> IsWhiteSpace(s[i])
    ensures n == |s| || !IsWhiteSpace(s[|s| - n - 1])
  {
    if s != [] && IsWhiteSpace(s[|s| - 1]) then 1 + TrailingWhiteSpace(s[..|s| - 1]) else 0
  }

  /**
   * `String.Trim()`: the result is the slice of `s` left after removing whitespace at both ends,
   * and it neither starts nor ends with whitespace.
   */
  function Trim(s: string): (r: string)
    ensures |r| <= |s|
    ensures r == [] || (!IsWhiteSpace(r[0]) && !IsWhiteSpace(r[|r| - 1]))
    ensures exists lo :: 0 <= lo <= |s| - |r| && r == s[lo..lo + |r|]
                         && AllWhiteSpace(s[..lo]) && AllWhiteSpace(s[lo + |r|..])
  {
    var lo := LeadingWhiteSpace(s);
    var rest := s[lo..];
    var n := TrailingWhiteSpace(rest);
    var r := rest[..|rest| - n];
    assert AllWhiteSpace(s[..lo]);
    assert r == s[lo..lo + |r|];
    assert s[lo + |r|..] == rest[|rest| - n..];
    assert AllWhiteSpace(rest[|rest| - n..]);
    assert r != [] ==> r[0] == s[lo] && r[|r| - 1] == rest[|rest| - n - 1];
    r
  }

  /** Whitespace put in front of a text that starts with something else is exactly its leading whitespace. */
  lemma {:induction false} LeadingWhiteSpaceOfPadded(before: string, rest: string)
    requires AllWhiteSpace(before) && rest != [] && !IsWhiteSpace(rest[0])
    ensures LeadingWhiteSpace(before + rest) == |before|
  {
    if before != [] {
      assert (before + rest)[1..] == before[1..] + rest;
      LeadingWhiteSpaceOfPadded(before[1..], rest);
    }
  }

  /** Whitespace put behind a text that ends with something else is exactly its trailing whitespace. */
  lemma {:induction false} TrailingWhiteSpaceOfPadded(rest: string, after: string)
    requires AllWhiteSpace(after) && rest != [] && !IsWhiteSpace(rest[|rest| - 1])
    ensures TrailingWhiteSpace(rest + after) == |after|
  {
    if after != [] {
      var init := after[..|after| - 1];
      assert (rest + after)[..|rest + after| - 1] == rest + init;
      TrailingWhiteSpaceOfPadded(rest, init);
    }
  }

  /** Trimming a text padded with whitespace on both sides gives back the text, when it is not blank at either end. */
  lemma TrimOfPadded(before: string, core: string, after: string)
    requires AllWhiteSpace(before) && AllWhiteSpace(after)
    requires core != [] && !IsWhiteSpace(core[0]) && !IsWhiteSpace(core[|core| - 1])
    ensures Trim(before + core + after) == core
  {
    var s := before + core + after;
    assert s == before + (core + after);
    LeadingWhiteSpaceOfPadded(before, core + after);
    assert s[|before|..] == core + after;
    TrailingWhiteSpaceOfPadded(core, after);
    assert s[|before|..|s| - |after|] == core;
  }

  /** `sub` occurs in `s` starting at index `i`. */
  predicate OccursAt(s: string, sub: string, i: int) {
    0 <= i && i + |sub| <= |s| && s[i..i + |sub|] == sub
  }

  /**
   * Ordinal `String.Contains(string)`: the empty string is contained in every string, a
   * contained string is no longer than `s`, and a prefix or a suffix is contained.
   */
  function Contains(s: string, sub: string): (r: bool)
    ensures sub == [] ==> r
    ensures r ==> |sub| <= |s|
    ensures StartsWith(s, sub) || EndsWith(s, sub) ==> r
  {
    assert StartsWith(s, sub) ==> OccursAt(s, sub, 0);
    assert EndsWith(s, sub) ==> OccursAt(s, sub, |s| - |sub|);
    exists i :: 0 <= i <= |s| - |sub| && OccursAt(s, sub, i)
  }

  /** The first occurrence of `sub` at or after `from`, or -1. */
  function IndexOfFrom(s: string, sub: string, from: nat): (r: int)
    ensures r == -1 || (from <= r && OccursAt(s, sub, r))
    ensures r == -1 ==> forall j :: from <= j ==> !OccursAt(s, sub, j)
    ensures r != -1 ==> forall j :: from <= j < r ==> !OccursAt(s, sub, j)
    decreases |s| - from
  {
    if from + |sub| > |s| then -1
    else if s[from..from + |sub|] == sub then from
    else IndexOfFrom(s, sub, from + 1)
  }

  /** `String.IndexOf(string)` compared ordinally: the first occurrence of `sub` in `s`, or -1 when there is none. */
  function IndexOf(s: string, sub: string): (r: int)
    ensures r >= 0 <==> Contains(s, sub)
    ensures r >= 0 ==> OccursAt(s, sub, r) && forall j :: 0 <= j < r ==> !OccursAt(s, sub, j)
    ensures r < 0 ==> r == -1
  {
    IndexOfFrom(s, sub, 0)
  }

  /** Ordinal `String.StartsWith(string)`: `s` agrees with `prefix` character by character at its start. */
  function StartsWith(s: string, prefix: string): (r: bool)
    ensures r <==> |prefix| <= |s| && forall i :: 0 <= i < |prefix| ==> s[i] == prefix[i]
  {
    |prefix| <= |s| && s[..|prefix|] == prefix
  }

  /** Ordinal `String.EndsWith(string)`: `s` agrees with `suffix` character by character at its end. */
  function EndsWith(s: string, suffix: string): (r: bool)
    ensures r <==> |suffix| <= |s| && forall i :: 0 <= i < |suffix| ==> s[|s| - |suffix| + i] == suffix[i]
  {
    |suffix| <= |s| && s[|s| - |suffix|..] == suffix
  }

  /** A string starts with whatever was put in front of it. */
  lemma StartsWithPrepended(prefix: string, rest: string)
    ensures StartsWith(prefix + rest, prefix)
  {
  }

  /** A string ends with whatever was put behind it. */
  lemma EndsWithAppended(rest: string, suffix: string)
    ensures EndsWith(rest + suffix, suffix)
  {
  }

  /** ASCII upper-casing of one character. */
  function UpperChar(c: char): (u: char)
    ensures 'a' <= c <= 'z' ==> u as int == c as int - 32
    ensures !('a' <= c <= 'z') ==> u == c
    ensures !('a' <= u <= 'z')
  {
    if 'a' <= c <= 'z' then (c as int - 32) as char else c
  }

  /** `String.ToUpper()`, restricted to ASCII letters. */
  function ToUpper(s: string): (r: string)
    ensures |r| == |s|
  {
    if s == [] then [] else [UpperChar(s[0])] + ToUpper(s[1..])
  }

  /** Upper-casing twice is upper-casing once. */
  lemma {:induction false} ToUpperIdempotent(s: string)
    ensures ToUpper(ToUpper(s)) == ToUpper(s)
  {
    if s != [] {
      ToUpperIdempotent(s[1..]);
      assert ToUpper(s)[1..] == ToUpper(s[1..]);
    }
  }

  /** A string without lower-case ASCII letters is its own upper-case form. */
  lemma {:induction false} ToUpperOfUpperCase(s: string)
    requires forall i :: 0 <= i < |s| ==> !('a' <= s[i] <= 'z')
    ensures ToUpper(s) == s
  {
    if s != [] {
      ToUpperOfUpperCase(s[1..]);
    }
  }

  /** Upper-casing changes exactly the lower-case ASCII letters, one character at a time. */
  lemma {:induction false} ToUpperAt(s: string, i: nat)
    requires i < |s|
    ensures ToUpper(s)[i] == UpperChar(s[i])
  {
    if i > 0 {
      ToUpperAt(s[1..], i - 1);
    }
  }

  /** The `IsNotNullOrEmpty()` extension: false exactly for null and for the empty string. */
  function IsNotNullOrEmpty(s: Option<string>): (r: bool)
    ensures !r <==> s == None || s == Some([])
  {
    s.Some? && s.value != []
  }

  /**
   * The `IsNotNullOrWhiteSpace()` extension: true exactly when the string is there and its
   * leading whitespace does not run to its end; such a string is in particular not null or empty.
   */
  function IsNotNullOrWhiteSpace(s: Option<string>): (r: bool)
    ensures r <==> s.Some? && LeadingWhiteSpace(s.value) < |s.value|
    ensures r ==> IsNotNullOrEmpty(s)
  {
    s.Some? && !AllWhiteSpace(s.value)
  }

  /** The number of leading characters of `s` that are not separators. */
  function SeparatorFreePrefix(s: string, separators: set<char>): (n: nat)
    ensures n <= |s|
    ensures forall i :: 0 <= i < n ==> s[i] !in separators
    ensures n == |s| || s[n] in separators
  {
    if s == [] || s[0] in separators then 0 else 1 + SeparatorFreePrefix(s[1..], separators)
  }

  /**
   * `String.Split(separators, StringSplitOptions.RemoveEmptyEntries)`: the maximal runs of
   * non-separator characters, in order; every piece is non-empty and holds no separator.
   */
  function Split(s: string, separators: set<char>): (pieces: seq<string>)
    ensures forall k :: 0 <= k < |pieces| ==> pieces[k] != []
    ensures forall k, i :: 0 <= k < |pieces| && 0 <= i < |pieces[k]| ==> pieces[k][i] !in separators
    decreases |s|
  {
    if s == [] then []
    else if s[0] in separators then Split(s[1..], separators)
    else
      var n := SeparatorFreePrefix(s, separators);
      [s[..n]] + Split(s[n..], separators)
  }

  /** A separator ends the separator-free prefix, whatever follows it. */
  lemma {:induction false} SeparatorFreePrefixBeforeSeparator(a: string, rest: string, separators: set<char>)
    requires rest != [] && rest[0] in separators
    ensures SeparatorFreePrefix(a + rest, separators) == SeparatorFreePrefix(a, separators)
  {
    if a == [] {
      assert a + rest == rest;
    } else if a[0] !in separators {
      assert (a + rest)[1..] == a[1..] + rest;
      SeparatorFreePrefixBeforeSeparator(a[1..], rest, separators);
    }
  }

  /** A non-empty run without separators is one piece: nothing is cut off and nothing is added. */
  lemma SplitOfSeparatorFree(s: string, separators: set<char>)
    requires s != [] && forall i :: 0 <= i < |s| ==> s[i] !in separators
    ensures Split(s, separators) == [s]
  {
    assert SeparatorFreePrefix(s, separators) == |s|;
    assert s[..|s|] == s && s[|s|..] == [];
  }

  /**
   * A separator always cuts: the pieces of `a + [c] + b` are the pieces of `a` followed by the
   * pieces of `b`. With `Split([]) == []` and `SplitOfSeparatorFree` this fixes the pieces as
   * the maximal separator-free runs.
   */
  lemma {:induction false} SplitAtSeparator(a: string, c: char, b: string, separators: set<char>)
    requires c in separators
    ensures Split(a + [c] + b, separators) == Split(a, separators) + Split(b, separators)
    decreases |a|
  {
    var s := a + [c] + b;
    if a == [] {
      assert s[1..] == b;
    } else if a[0] in separators {
      assert s[1..] == a[1..] + [c] + b;
      SplitAtSeparator(a[1..], c, b, separators);
    } else {
      assert s == a + ([c] + b);
      SeparatorFreePrefixBeforeSeparator(a, [c] + b, separators);
      var n := SeparatorFreePrefix(a, separators);
      assert s[..n] == a[..n];
      assert s[n..] == a[n..] + [c] + b;
      SplitAtSeparator(a[n..], c, b, separators);
    }
  }

  /** The characters of `s` that are not separators, in order. */
  function WithoutSeparators(s: string, separators: set<char>): string {
    if s == [] then []
    else (if s[0] in separators then [] else [s[0]]) + WithoutSeparators(s[1..], separators)
  }

  function Concat(pieces: seq<string>): string {
    if pieces == [] then [] else pieces[0] + Concat(pieces[1..])
  }

  lemma {:induction false} WithoutSeparatorsAppend(a: string, b: string, separators: set<char>)
    ensures WithoutSeparators(a + b, separators) == WithoutSeparators(a, separators) + WithoutSeparators(b, separators)
  {
    if a == [] {
      assert a + b == b;
    } else {
      assert (a + b)[1..] == a[1..] + b;
      WithoutSeparatorsAppend(a[1..], b, separators);
    }
  }

  lemma {:induction false} WithoutSeparatorsOfFreeRun(a: string, separators: set<char>)
    requires forall i :: 0 <= i < |a| ==> a[i] !in separators
    ensures WithoutSeparators(a, separators) == a
  {
    if a != [] {
      WithoutSeparatorsOfFreeRun(a[1..], separators);
    }
  }

  /** Splitting loses only the separators: gluing the pieces back together gives `s` without them. */
  lemma {:induction false} SplitLosesOnlySeparators(s: string, separators: set<char>)
    ensures Concat(Split(s, separators)) == WithoutSeparators(s, separators)
    decreases |s|
  {
    if s == [] {
    } else if s[0] in separators {
      SplitLosesOnlySeparators(s[1..], separators);
    } else {
      var n := SeparatorFreePrefix(s, separators);
      SplitLosesOnlySeparators(s[n..], separators);
      assert s == s[..n] + s[n..];
      WithoutSeparatorsAppend(s[..n], s[n..], separators);
      WithoutSeparatorsOfFreeRun(s[..n], separators);
      assert Split(s, separators)[1..] == Split(s[n..], separators);
    }
  }
}
