/** The JavaScript string primitives the repository relies on: the `\s` / `trim()`
  * whitespace set, `startsWith`/`endsWith`, `split` on one character, `join`, number
  * formatting and ASCII case folding. Strings are sequences of characters. */
module Text {

  /** A suffix slice cut at two points. */
  lemma SliceSplit3<T>(s: seq<T>, a: nat, b: nat, c: nat)
    requires a <= b <= c <= |s|
    ensures s[a..] == s[a..b] + s[b..c] + s[c..]
  {}

  /** A slice of a slice is a slice. */
  lemma SliceOfSlice<T>(s: seq<T>, a: nat, b: nat, i: nat, l: nat)
    requires a <= b <= |s| && i + l <= b - a
    ensures s[a..b][i..i + l] == s[a + i..a + i + l]
  {
    var x, y := s[a..b][i..i + l], s[a + i..a + i + l];
    forall k | 0 <= k < l ensures x[k] == y[k] {
      assert x[k] == s[a..b][i + k];
    }
  }

  /** A character of JavaScript's `\s` class; `trim()` removes exactly these. */
  predicate IsSpace(c: char) {
    c == '\t' || c == '\n' || c == '\U{000B}' || c == '\U{000C}' || c == '\r' || c == ' '
    || c == '\U{00A0}' || c == '\U{1680}' || ('\U{2000}' <= c <= '\U{200A}')
    || c == '\U{2028}' || c == '\U{2029}' || c == '\U{202F}' || c == '\U{205F}'
    || c == '\U{3000}' || c == '\U{FEFF}'
  }

  /** The characters a regular-expression `.` does not match and `^`/`$` (with the `m` flag) see as line ends. */
  predicate IsLineTerminator(c: char) {
    c == '\n' || c == '\r' || c == '\U{2028}' || c == '\U{2029}'
  }

  predicate IsDigit(c: char) { '0' <= c <= '9' }

  predicate IsAsciiLetter(c: char) { 'A' <= c <= 'Z' || 'a' <= c <= 'z' }

  predicate IsAlnum(c: char) { IsAsciiLetter(c) || IsDigit(c) }

  /** The regular-expression class `\w`. */
  predicate IsWordChar(c: char) { IsAlnum(c) || c == '_' }

  /** A string that is empty or only whitespace: `s.trim() === ''`. */
  predicate AllSpace(s: string) {
    forall i :: 0 <= i < |s| ==> IsSpace(s[i])
  }

  predicate IsTrimmed(s: string) {
    s == [] || (!IsSpace(s[0]) && !IsSpace(s[|s| - 1]))
  }

  predicate NoLineTerminator(s: string) {
    forall i :: 0 <= i < |s| ==> !IsLineTerminator(s[i])
  }

  function TrimStart(s: string): (r: string)
    ensures |r| <= |s| && r == s[|s| - |r|..]
    ensures r == [] || !IsSpace(r[0])
    ensures AllSpace(s[..|s| - |r|])
  {
    if |s| > 0 && IsSpace(s[0]) then
      var r := TrimStart(s[1..]);
      assert s[..|s| - |r|] == [s[0]] + s[1..][..|s| - 1 - |r|];
      AllSpaceAppend([s[0]], s[1..][..|s| - 1 - |r|]);
      assert s[|s| - |r|..] == s[1..][|s| - 1 - |r|..];
      r
    else s
  }

  /** Only an all-space string trims to nothing at the front. */
  lemma {:induction false} TrimStartEmpty(s: string)
    requires TrimStart(s) == []
    ensures AllSpace(s)
    decreases |s|
  {
    if |s| > 0 {
      TrimStartEmpty(s[1..]);
      forall i | 0 < i < |s| ensures IsSpace(s[i]) {
        assert s[i] == s[1..][i - 1];
      }
    }
  }

  /** `s.trimEnd()` */
  function TrimEnd(s: string): (r: string)
    ensures |r| <= |s| && r == s[..|r|]
    ensures r == [] || !IsSpace(r[|r| - 1])
    ensures AllSpace(s[|r|..])
  {
    if |s| > 0 && IsSpace(s[|s| - 1]) then
      var p := s[..|s| - 1];
      var r := TrimEnd(p);
      assert s[|r|..] == p[|r|..] + [s[|s| - 1]];
      AllSpaceAppend(p[|r|..], [s[|s| - 1]]);
      assert s[..|r|] == p[..|r|];
      r
    else s
  }

  /** `\s*` matches a concatenation exactly when it matches both parts. */
  lemma AllSpaceAppend(a: string, b: string)
    ensures AllSpace(a + b) <==> AllSpace(a) && AllSpace(b)
  {
    if AllSpace(a) && AllSpace(b) {
      forall i | 0 <= i < |a + b| ensures IsSpace((a + b)[i]) {
        if i >= |a| { assert (a + b)[i] == b[i - |a|]; }
      }
    }
    if AllSpace(a + b) {
      forall i | 0 <= i < |a| ensures IsSpace(a[i]) {
        assert (a + b)[i] == a[i];
      }
      forall i | 0 <= i < |b| ensures IsSpace(b[i]) {
        assert (a + b)[|a| + i] == b[i];
      }
    }
  }

  /** `s.trim()`: leading whitespace is dropped one character at a time, then `trimEnd`.
    * Its relation to `TrimStart` and `TrimEnd` is lemma `TrimIsBothEnds`. */
  function Trim(s: string): (r: string)
    ensures IsTrimmed(r)
    ensures |r| <= |s|
    decreases |s|
  {
    if |s| > 0 && IsSpace(s[0]) then Trim(s[1..])
    else
      var r := TrimEnd(s);
      assert r != [] ==> r[0] == s[0];
      r
  }

  lemma {:induction false} TrimIsBothEnds(s: string)
    ensures Trim(s) == TrimEnd(TrimStart(s))
    decreases |s|
  {
    if |s| > 0 && IsSpace(s[0]) {
      TrimIsBothEnds(s[1..]);
    }
  }

  /** `s.trim() === ''` exactly when `s` is all whitespace. */
  lemma {:induction false} TrimEmptyIff(s: string)
    ensures Trim(s) == [] <==> AllSpace(s)
    decreases |s|
  {
    if |s| > 0 && IsSpace(s[0]) {
      TrimEmptyIff(s[1..]);
      assert AllSpace(s) <==> AllSpace(s[1..]) by {
        if AllSpace(s[1..]) {
          forall i | 0 <= i < |s| ensures IsSpace(s[i]) {
            if i > 0 { assert s[i] == s[1..][i - 1]; }
          }
        }
      }
    }
  }

  /** Trimming a trimmed string changes nothing. */
  lemma TrimOfTrimmed(s: string)
    requires IsTrimmed(s)
    ensures Trim(s) == s
  {}

  lemma TrimmedNoSpace(s: string)
    requires IsTrimmed(s) && |s| > 0
    ensures TrimStart(s) == s && TrimEnd(s) == s
  {}

  /** Trailing whitespace appended to a string does not survive `trimEnd`. */
  lemma {:induction false} TrimEndSpaceSuffix(a: string, w: string)
    requires AllSpace(w)
    ensures TrimEnd(a + w) == TrimEnd(a)
    decreases |w|
  {
    if w != [] {
      var w' := w[..|w| - 1];
      assert (a + w)[..|a + w| - 1] == a + w';
      TrimEndSpaceSuffix(a, w');
    } else {
      assert a + w == a;
    }
  }

  /** Leading whitespace prepended to a string does not survive `trimStart`. */
  lemma {:induction false} TrimStartSpacePrefix(w: string, a: string)
    requires AllSpace(w)
    ensures TrimStart(w + a) == TrimStart(a)
    decreases |w|
  {
    if w != [] {
      assert (w + a)[1..] == w[1..] + a;
      TrimStartSpacePrefix(w[1..], a);
    } else {
      assert w + a == a;
    }
  }

  /** `trimEnd` of `a + b` only touches `b` when `b` keeps a non-space character. */
  lemma {:induction false} TrimEndAppend(a: string, b: string)
    requires TrimEnd(b) != []
    ensures TrimEnd(a + b) == a + TrimEnd(b)
    decreases |b|
  {
    if IsSpace(b[|b| - 1]) {
      assert (a + b)[..|a + b| - 1] == a + b[..|b| - 1];
      TrimEndAppend(a, b[..|b| - 1]);
    }
  }

  lemma TrimStartAppend(a: string, b: string)
    requires |a| > 0 && !IsSpace(a[0])
    ensures TrimStart(a + b) == a + b
  {}

  lemma TrimOfTrimmedPadding(w1: string, s: string, w2: string)
    requires AllSpace(w1) && AllSpace(w2) && IsTrimmed(s)
    ensures Trim(w1 + s + w2) == s
  {
    assert w1 + s + w2 == w1 + (s + w2);
    TrimSpacePrefix(w1, s + w2);
    if s == [] {
      assert s + w2 == w2;
      TrimEmptyIff(w2);
    } else {
      TrimEndSpaceSuffix(s, w2);
      assert (s + w2)[0] == s[0];
    }
  }

  /** `e` sits in `s` at `a`, at the start of `s` or right after whitespace. */
  predicate SpacedSlice(s: string, a: nat, e: string) {
    a + |e| <= |s| && e == s[a..a + |e|] && (a == 0 || IsSpace(s[a - 1]))
  }

  /** Trimming keeps only characters of the string. */
  lemma {:induction false} TrimChars(s: string)
    ensures forall c :: c in Trim(s) ==> c in s
    decreases |s|
  {
    if |s| > 0 && IsSpace(s[0]) {
      TrimChars(s[1..]);
    }
  }

  /** Trailing whitespace does not survive `trim`. */
  lemma {:induction false} TrimSpaceSuffix(a: string, w: string)
    requires AllSpace(w)
    ensures Trim(a + w) == Trim(a)
    decreases |a|
  {
    if a == [] {
      assert a + w == w;
      TrimEmptyIff(w);
    } else if IsSpace(a[0]) {
      assert (a + w)[1..] == a[1..] + w;
      TrimSpaceSuffix(a[1..], w);
    } else {
      TrimEndSpaceSuffix(a, w);
    }
  }

  /** Leading whitespace does not survive `trim`. */
  lemma {:induction false} TrimSpacePrefix(w: string, a: string)
    requires AllSpace(w)
    ensures Trim(w + a) == Trim(a)
    decreases |w|
  {
    if w != [] {
      assert (w + a)[1..] == w[1..] + a;
      TrimSpacePrefix(w[1..], a);
    } else {
      assert w + a == a;
    }
  }

  predicate StartsWith(s: string, prefix: string) {
    |prefix| <= |s| && s[..|prefix|] == prefix
  }

  predicate EndsWith(s: string, suffix: string) {
    |suffix| <= |s| && s[|s| - |suffix|..] == suffix
  }

  lemma StartsWithAppend(p: string, rest: string)
    ensures StartsWith(p + rest, p) && (p + rest)[|p|..] == rest
  {
    assert (p + rest)[..|p|] == p;
  }

  /** `parts.join(sep)` */
  function Join(parts: seq<string>, sep: string): string
  {
    if |parts| == 0 then ""
    else if |parts| == 1 then parts[0]
    else parts[0] + sep + Join(parts[1..], sep)
  }

  /** `[a, ...rest].join(sep)` for a non-empty `rest`. */
  lemma JoinCons(a: string, rest: seq<string>, sep: string, tail: string)
    requires |rest| >= 1 && Join(rest, sep) == tail
    ensures Join([a] + rest, sep) == a + sep + tail
  {
    assert ([a] + rest)[1..] == rest;
  }

  /** `parts.join(sep)` grows by the separator and the new part. */
  lemma {:induction false} JoinSnoc(parts: seq<string>, sep: string, x: string)
    requires |parts| >= 1
    ensures Join(parts + [x], sep) == Join(parts, sep) + sep + x
    decreases |parts|
  {
    if |parts| == 1 {
      assert (parts + [x])[1..] == [x];
    } else {
      assert (parts + [x])[1..] == parts[1..] + [x];
      JoinSnoc(parts[1..], sep, x);
    }
  }

  /** Joining one more part of a sequence. */
  lemma JoinPrefixStep(parts: seq<string>, sep: string, n: nat)
    requires 2 <= n <= |parts|
    ensures Join(parts[..n], sep) == Join(parts[..n - 1], sep) + sep + parts[n - 1]
  {
    JoinSnoc(parts[..n - 1], sep, parts[n - 1]);
    assert parts[..n - 1] + [parts[n - 1]] == parts[..n];
  }

  /** Every line followed by a newline: the text a loop of `content += line + '\n'` builds. */
  function Terminated(lines: seq<string>): string
  {
    if lines == [] then "" else lines[0] + "\n" + Terminated(lines[1..])
  }

  lemma {:induction false} TerminatedAppend(a: seq<string>, b: seq<string>)
    ensures Terminated(a + b) == Terminated(a) + Terminated(b)
    decreases |a|
  {
    if a == [] {
      assert a + b == b;
    } else {
      assert (a + b)[1..] == a[1..] + b;
      TerminatedAppend(a[1..], b);
    }
  }

  /** `content` followed by every line and a newline after each, appended one at a time. */
  function AppendLines(content: string, lines: seq<string>): string
    decreases |lines|
  {
    if lines == [] then content else AppendLines(content + lines[0] + "\n", lines[1..])
  }

  lemma {:induction false} AppendLinesConcat(c: string, x: seq<string>, y: seq<string>)
    ensures AppendLines(c, x + y) == AppendLines(AppendLines(c, x), y)
    decreases |x|
  {
    if x == [] {
      assert x + y == y;
    } else {
      assert (x + y)[1..] == x[1..] + y;
      AppendLinesConcat(c + x[0] + "\n", x[1..], y);
    }
  }

  lemma {:induction false} AppendLinesTerminated(c: string, lines: seq<string>)
    ensures AppendLines(c, lines) == c + Terminated(lines)
    decreases |lines|
  {
    if lines != [] {
      AppendLinesTerminated(c + lines[0] + "\n", lines[1..]);
      assert c + lines[0] + "\n" + Terminated(lines[1..]) == c + (lines[0] + "\n" + Terminated(lines[1..]));
    }
  }

  /** Joining with newlines is terminating every line but the last. */
  lemma {:induction false} JoinAsTerminated(lines: seq<string>, last: string)
    ensures Join(lines + [last], "\n") == Terminated(lines) + last
    decreases |lines|
  {
    if lines == [] {
      assert lines + [last] == [last];
    } else {
      assert (lines + [last])[1..] == lines[1..] + [last];
      JoinAsTerminated(lines[1..], last);
    }
  }

  /** `s.split(sep)` for a one-character separator: the pieces between separators, at least one. */
  function Split(s: string, sep: char): (r: seq<string>)
    ensures |r| >= 1
    ensures forall i :: 0 <= i < |r| ==> sep !in r[i]
    decreases |s|
  {
    if |s| == 0 then [""]
    else if s[0] == sep then [""] + Split(s[1..], sep)
    else
      var t := Split(s[1..], sep);
      [[s[0]] + t[0]] + t[1..]
  }

  /** Splitting a separator-free prefix off a string. */
  lemma {:induction false} SplitAfterPiece(a: string, sep: char, b: string)
    requires sep !in a
    ensures Split(a + [sep] + b, sep) == [a] + Split(b, sep)
    decreases |a|
  {
    if a == [] {
      assert a + [sep] + b == [sep] + b;
      assert ([sep] + b)[1..] == b;
    } else {
      assert (a + [sep] + b)[1..] == a[1..] + [sep] + b;
      SplitAfterPiece(a[1..], sep, b);
      assert [a[0]] + a[1..] == a;
    }
  }

  lemma {:induction false} SplitNoSep(a: string, sep: char)
    requires sep !in a
    ensures Split(a, sep) == [a]
    decreases |a|
  {
    if a != [] {
      SplitNoSep(a[1..], sep);
      assert [a[0]] + a[1..] == a;
    }
  }

  /** `join` then `split` on the same separator gives the pieces back. */
  lemma {:induction false} SplitJoin(parts: seq<string>, sep: char)
    requires |parts| >= 1
    requires forall i :: 0 <= i < |parts| ==> sep !in parts[i]
    ensures Split(Join(parts, [sep]), sep) == parts
    decreases |parts|
  {
    if |parts| == 1 {
      SplitNoSep(parts[0], sep);
    } else {
      SplitJoin(parts[1..], sep);
      assert Join(parts, [sep]) == parts[0] + [sep] + Join(parts[1..], [sep]);
      SplitAfterPiece(parts[0], sep, Join(parts[1..], [sep]));
      assert [parts[0]] + parts[1..] == parts;
    }
  }

  /** `split` then `join` on the same separator gives the string back. */
  lemma {:induction false} JoinSplit(s: string, sep: char)
    ensures Join(Split(s, sep), [sep]) == s
    decreases |s|
  {
    if |s| > 0 {
      JoinSplit(s[1..], sep);
      var t := Split(s[1..], sep);
      if s[0] == sep {
        assert Split(s, sep) == [""] + t;
        assert ([""] + t)[1..] == t;
        assert [s[0]] + s[1..] == s;
      } else {
        var r := Split(s, sep);
        assert r == [[s[0]] + t[0]] + t[1..];
        if |t| == 1 {
          assert [s[0]] + s[1..] == s;
        } else {
          assert r[1..] == t[1..];
          assert Join(t, [sep]) == t[0] + [sep] + Join(t[1..], [sep]);
          assert [s[0]] + s[1..] == s;
        }
      }
    }
  }

  function DigitChar(d: nat): (c: char)
    requires d < 10
    ensures IsDigit(c)
  {
    ['0', '1', '2', '3', '4', '5', '6', '7', '8', '9'][d]
  }

  /** The decimal form of a number, as a template literal `${n}` writes it. */
  function NatToString(n: nat): (r: string)
    ensures |r| >= 1
    ensures forall i :: 0 <= i < |r| ==> IsDigit(r[i])
    decreases n
  {
    if n < 10 then [DigitChar(n)] else NatToString(n / 10) + [DigitChar(n % 10)]
  }

  function Pow10(n: nat): (r: nat)
    ensures r >= 1
  {
    if n == 0 then 1 else 10 * Pow10(n - 1)
  }

  /** A number at least `10^n` has more than `n` digits. */
  lemma {:induction false} NatToStringLength(k: nat, n: nat)
    requires k >= Pow10(n)
    ensures |NatToString(k)| > n
    decreases n
  {
    if n > 0 {
      assert k >= 10;
      NatToStringLength(k / 10, n - 1);
    }
  }

  /** The value of a string of decimal digits, `Number(s)` on such a string. */
  function DigitsValue(s: string): (v: nat)
    requires forall i :: 0 <= i < |s| ==> IsDigit(s[i])
  {
    if s == [] then 0
    else
      var d := s[|s| - 1] as int - '0' as int;
      assert IsDigit(s[|s| - 1]);
      10 * DigitsValue(s[..|s| - 1]) + d
  }

  lemma {:induction false} DigitsValueOfNat(n: nat)
    ensures DigitsValue(NatToString(n)) == n
    decreases n
  {
    if n >= 10 {
      DigitsValueOfNat(n / 10);
      var s := NatToString(n);
      assert s[..|s| - 1] == NatToString(n / 10);
    }
  }

  function LowerChar(c: char): char {
    if 'A' <= c <= 'Z' then (c as int + 32) as char else c
  }

  /** `toLowerCase()` restricted to ASCII letters. */
  function LowerAscii(s: string): (r: string)
    ensures |r| == |s|
    ensures forall i :: 0 <= i < |s| ==> r[i] == LowerChar(s[i])
  {
    seq(|s|, i requires 0 <= i < |s| => LowerChar(s[i]))
  }

  /** `s.includes(sub)` */
  predicate Contains(s: string, sub: string) {
    exists i :: 0 <= i <= |s| && OccursAt(s, sub, i)
  }

  predicate OccursAt(s: string, sub: string, i: int) {
    0 <= i <= |s| - |sub| && s[i..i + |sub|] == sub
  }

  lemma NotContainsLonger(s: string, sub: string)
    requires |sub| > |s|
    ensures !Contains(s, sub)
  {}

  /** The first index of `c` in `s`, or `|s|`. */
  function IndexOfChar(s: string, c: char): (k: nat)
    ensures k <= |s|
    ensures k < |s| ==> s[k] == c
    ensures c !in s[..k]
  {
    if |s| == 0 then 0
    else if s[0] == c then 0
    else
      var k := 1 + IndexOfChar(s[1..], c);
      assert s[..k] == [s[0]] + s[1..][..k - 1];
      k
  }

  // ---------------------------------------------------------------------------------
  // `s.split(/^sep/m)` for a literal `sep`

  /** A match of `/^sep/m` at `p`: `sep` at the start of the text or just after a line
    * terminator. */
  predicate LineStartMatch(s: string, sep: string, p: nat) {
    p + |sep| <= |s| && (p == 0 || IsLineTerminator(s[p - 1])) && s[p..p + |sep|] == sep
  }

  /** The first match at or after `from`, or `|s|` when there is none. */
  function NextLineStartMatch(s: string, sep: string, from: nat): (p: nat)
    requires from <= |s| && |sep| > 0
    ensures from <= p <= |s|
    ensures p < |s| ==> LineStartMatch(s, sep, p)
    decreases |s| - from
  {
    if from == |s| || LineStartMatch(s, sep, from) then from else NextLineStartMatch(s, sep, from + 1)
  }

  /** No match is skipped: there is none between `from` and the one found. */
  lemma {:induction false} NextLineStartMatchIsFirst(s: string, sep: string, from: nat)
    requires from <= |s| && |sep| > 0
    ensures forall q :: from <= q < NextLineStartMatch(s, sep, from) ==> !LineStartMatch(s, sep, q)
    decreases |s| - from
  {
    if from < |s| && !LineStartMatch(s, sep, from) {
      NextLineStartMatchIsFirst(s, sep, from + 1);
    }
  }

  /** The pieces of `s[start..]` between matches; the search resumes after each match. */
  function SplitAtLineStarts(s: string, sep: string, start: nat): (r: seq<string>)
    requires start <= |s| && |sep| > 0
    ensures |r| >= 1
    decreases |s| - start
  {
    var p := NextLineStartMatch(s, sep, start);
    if p == |s| then [s[start..]] else [s[start..p]] + SplitAtLineStarts(s, sep, p + |sep|)
  }

  /** Splitting loses nothing: the pieces joined by `sep` are the text again. */
  lemma {:induction false} JoinSplitAtLineStarts(s: string, sep: string, start: nat)
    requires start <= |s| && |sep| > 0
    ensures Join(SplitAtLineStarts(s, sep, start), sep) == s[start..]
    decreases |s| - start
  {
    var p := NextLineStartMatch(s, sep, start);
    if p < |s| {
      var rest := SplitAtLineStarts(s, sep, p + |sep|);
      JoinSplitAtLineStarts(s, sep, p + |sep|);
      JoinAtMatch(s, start, p, sep, rest);
    }
  }

  /** The text before a match of `sep`, joined to the pieces of the text after it. */
  lemma JoinAtMatch(s: string, start: nat, p: nat, sep: string, rest: seq<string>)
    requires start <= p && p + |sep| <= |s| && s[p..p + |sep|] == sep
    requires |rest| >= 1 && Join(rest, sep) == s[p + |sep|..]
    ensures Join([s[start..p]] + rest, sep) == s[start..]
  {
    SliceSplit3(s, start, p, p + |sep|);
    JoinCons(s[start..p], rest, sep, s[p + |sep|..]);
  }
}
