/** Keyword markers: the regular expressions `\bword\s*:\s*` (optionally without `\b`,
  * optionally with the `i` flag) that the skills use to find where a named parameter of a
  * free-text prompt begins. `s.match(re)` finds the leftmost position where the marker
  * matches; `FindMarker` is that search.
  *
  * Every keyword starts with an ASCII letter, so `\b` in front of it holds exactly when the
  * previous character is not a word character. Without the `u` flag, the `i` flag folds
  * case only between ASCII letters when the keyword is ASCII, which `LowerAscii` captures
  * exactly. */
module Keywords {
  import opened Wrappers
  import opened Text

  datatype Marker = Marker(word: string, boundary: bool, ignoreCase: bool)

  /** The end of the run of whitespace (`\s*`, greedy) starting at `j`. */
  function SkipSpaces(s: string, j: nat): (k: nat)
    requires j <= |s|
    ensures j <= k <= |s|
    ensures forall t :: j <= t < k ==> IsSpace(s[t])
    ensures k < |s| ==> !IsSpace(s[k])
    decreases |s| - j
  {
    if j < |s| && IsSpace(s[j]) then SkipSpaces(s, j + 1) else j
  }

  /** `word` occurs at `i`, up to ASCII case when `ignoreCase`. */
  predicate WordAt(s: string, word: string, i: nat, ignoreCase: bool) {
    i + |word| <= |s|
    && (if ignoreCase then LowerAscii(s[i..i + |word|]) == LowerAscii(word)
        else s[i..i + |word|] == word)
  }

  /** The marker regular expression matches starting at `i`. */
  predicate MarkerAt(s: string, m: Marker, i: nat) {
    i + |m.word| <= |s|
    && (m.boundary ==> i == 0 || !IsWordChar(s[i - 1]))
    && WordAt(s, m.word, i, m.ignoreCase)
    && var k := SkipSpaces(s, i + |m.word|); k < |s| && s[k] == ':'
  }

  /** Where a match starting at `i` ends: after the colon and the whitespace behind it. */
  function MarkerEnd(s: string, m: Marker, i: nat): (e: nat)
    requires MarkerAt(s, m, i)
    ensures i + |m.word| < e <= |s|
    ensures e < |s| ==> !IsSpace(s[e])
  {
    SkipSpaces(s, SkipSpaces(s, i + |m.word|) + 1)
  }

  /** The leftmost match at or after `from`. */
  function FindMarker(s: string, m: Marker, from: nat): (r: Option<nat>)
    requires from <= |s|
    ensures r.Some? ==> from <= r.value && MarkerAt(s, m, r.value)
    ensures r.Some? ==> forall j :: from <= j < r.value ==> !MarkerAt(s, m, j)
    ensures r.None? ==> forall j :: from <= j ==> !MarkerAt(s, m, j)
    decreases |s| - from
  {
    if MarkerAt(s, m, from) then Some(from)
    else if from == |s| then None
    else FindMarker(s, m, from + 1)
  }

  /** Whitespace skipping that stops inside a prefix stops at the same place in the whole. */
  lemma {:induction false} SkipSpacesPrefix(r: string, s: string, j: nat)
    requires |r| <= |s| && r == s[..|r|] && j <= |r|
    requires SkipSpaces(r, j) < |r|
    ensures SkipSpaces(s, j) == SkipSpaces(r, j)
    decreases |r| - j
  {
    if IsSpace(r[j]) {
      assert s[j] == r[j];
      SkipSpacesPrefix(r, s, j + 1);
    } else {
      assert s[j] == r[j];
    }
  }

  /** A match inside a prefix is a match in the whole string. */
  lemma MarkerInPrefix(r: string, s: string, m: Marker, j: nat)
    requires |r| <= |s| && r == s[..|r|]
    requires MarkerAt(r, m, j)
    ensures MarkerAt(s, m, j)
  {
    var n := j + |m.word|;
    SkipSpacesPrefix(r, s, n);
    assert r[j..n] == s[..|r|][j..n] == s[j..n];
    if j > 0 {
      assert s[j - 1] == r[j - 1];
    }
    assert s[SkipSpaces(s, n)] == r[SkipSpaces(r, n)];
  }

  /** Whitespace skipping inside a slice that stops before the slice ends stops at the same
    * place in the whole string. */
  lemma {:induction false} SkipSpacesSlice(s: string, a: nat, b: nat, j: nat)
    requires a <= b <= |s| && j <= b - a
    requires SkipSpaces(s[a..b], j) < b - a
    ensures SkipSpaces(s, a + j) == a + SkipSpaces(s[a..b], j)
    decreases b - a - j
  {
    assert s[a..b][j] == s[a + j];
    if IsSpace(s[a + j]) {
      SkipSpacesSlice(s, a, b, j + 1);
    }
  }

  lemma WordAtSlice(s: string, a: nat, b: nat, word: string, j: nat, ignoreCase: bool)
    requires a <= b <= |s| && WordAt(s[a..b], word, j, ignoreCase)
    ensures WordAt(s, word, a + j, ignoreCase)
  {
    SliceOfSlice(s, a, b, j, |word|);
  }

  /** A match inside a slice is a match in the whole string, provided the slice does not
    * start right after a word character. */
  lemma MarkerInSlice(s: string, a: nat, b: nat, m: Marker, j: nat)
    requires a <= b <= |s| && (a == 0 || !IsWordChar(s[a - 1]))
    requires MarkerAt(s[a..b], m, j)
    ensures MarkerAt(s, m, a + j)
  {
    WordAtSlice(s, a, b, m.word, j, m.ignoreCase);
    ColonInSlice(s, a, b, j + |m.word|);
  }

  /** The colon found after whitespace inside a slice is found in the whole string. */
  lemma ColonInSlice(s: string, a: nat, b: nat, n: nat)
    requires a <= b <= |s| && n <= b - a
    requires SkipSpaces(s[a..b], n) < b - a && s[a..b][SkipSpaces(s[a..b], n)] == ':'
    ensures SkipSpaces(s, a + n) < |s| && s[SkipSpaces(s, a + n)] == ':'
  {
    SkipSpacesSlice(s, a, b, n);
  }

  /** The marker matches nowhere in `s`. */
  ghost predicate NoMarker(s: string, m: Marker) {
    forall j: nat :: !MarkerAt(s, m, j)
  }

  lemma SpaceIsNotWordChar(c: char)
    requires IsSpace(c)
    ensures !IsWordChar(c)
  {}

  /** A string without a match has none once trimmed. */
  lemma {:induction false} NoMarkerInTrim(s: string, m: Marker)
    requires NoMarker(s, m)
    ensures NoMarker(Trim(s), m)
    decreases |s|
  {
    if |s| > 0 && IsSpace(s[0]) {
      NoMarkerInSpaced(s, m, 1, s[1..]);
      NoMarkerInTrim(s[1..], m);
    } else {
      NoMarkerInSpaced(s, m, 0, TrimEnd(s));
    }
  }

  /** A slice that starts at the beginning or after whitespace holds no match when the
    * whole string holds none. */
  lemma NoMarkerInSpaced(s: string, m: Marker, a: nat, e: string)
    requires SpacedSlice(s, a, e) && NoMarker(s, m)
    ensures NoMarker(e, m)
  {
    if a > 0 {
      SpaceIsNotWordChar(s[a - 1]);
    }
    forall j: nat | MarkerAt(e, m, j) ensures false {
      MarkerInSlice(s, a, a + |e|, m, j);
    }
  }

  /** The text before the first match holds no match. */
  lemma NoMarkerBefore(s: string, m: Marker, i: nat)
    requires i <= |s| && forall j: nat :: j < i ==> !MarkerAt(s, m, j)
    ensures NoMarker(s[..i], m)
  {
    forall j: nat | MarkerAt(s[..i], m, j) ensures false {
      MarkerInPrefix(s[..i], s, m, j);
    }
  }
}
