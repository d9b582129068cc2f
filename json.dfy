/** JavaScript values as `JSON.parse` produces them, the truthiness and `Number()`
  * coercions the skills apply to them, and the `/\{[\s\S]*\}/` search that cuts a JSON
  * object out of free text. `JSON.parse` itself is not modelled: the operations that use it
  * take it as a parameter. */
module Json {
  import opened Wrappers
  import opened Text

  /** A parsed JSON value. Numbers are finite reals; an object maps each key to the last
    * value `JSON.parse` saw for it. */
  datatype Json =
    | JNull
    | JBool(b: bool)
    | JNum(n: real)
    | JString(s: string)
    | JArray(items: seq<Json>)
    | JObject(fields: map<string, Json>)

  /** A list of strings as a JSON array. */
  function JsonStrings(texts: seq<string>): (r: seq<Json>)
    ensures |r| == |texts| && forall i :: 0 <= i < |r| ==> r[i] == JString(texts[i])
  {
    if texts == [] then [] else [JString(texts[0])] + JsonStrings(texts[1..])
  }

  /** JavaScript truthiness (`!!v`). */
  predicate Truthy(v: Json) {
    match v
    case JNull => false
    case JBool(b) => b
    case JNum(n) => n != 0.0
    case JString(s) => s != ""
    case JArray(_) => true
    case JObject(_) => true
  }

  // ---------------------------------------------------------------------------------
  // The first `{` to the last `}`

  /** The last index of `c` in `s`. */
  function LastIndexOf(s: string, c: char): (r: Option<nat>)
    ensures r.Some? ==> r.value < |s| && s[r.value] == c && c !in s[r.value + 1..]
    ensures r.None? ==> c !in s
  {
    if s == [] then None
    else if s[|s| - 1] == c then Some(|s| - 1)
    else
      var r := LastIndexOf(s[..|s| - 1], c);
      assert s == s[..|s| - 1] + [s[|s| - 1]];
      if r.Some? then
        assert s[r.value + 1..] == s[..|s| - 1][r.value + 1..] + [s[|s| - 1]];
        r
      else r
  }

  /** `s[i]` is the first `{` of `s` and `s[j]` its last `}`, which comes after it. */
  predicate OutermostBraces(s: string, i: nat, j: nat) {
    i < j < |s| && s[i] == '{' && s[j] == '}' && '{' !in s[..i] && '}' !in s[j + 1..]
  }

  /** `text.match(/\{[\s\S]*\}/)`: the leftmost match starts at the first `{`, and the
    * greedy `[\s\S]*` runs it to the last `}`. There is a match exactly when some `}`
    * follows some `{`. */
  function BraceSpan(s: string): (r: Option<string>)
    ensures r.Some? <==> exists i, j :: 0 <= i < j < |s| && s[i] == '{' && s[j] == '}'
    ensures r.Some? ==> exists i: nat, j: nat :: OutermostBraces(s, i, j) && r.value == s[i..j + 1]
  {
    var i := IndexOfChar(s, '{');
    var last := LastIndexOf(s, '}');
    if i == |s| || last.None? || last.value < i then
      assert forall k :: 0 <= k < i ==> s[k] != '{' by {
        forall k | 0 <= k < i ensures s[k] != '{' { assert s[..i][k] == s[k]; }
      }
      assert last.Some? ==> forall k :: last.value < k < |s| ==> s[k] != '}' by {
        if last.Some? {
          forall k | last.value < k < |s| ensures s[k] != '}' {
            assert s[last.value + 1..][k - last.value - 1] == s[k];
          }
        }
      }
      None
    else
      assert OutermostBraces(s, i, last.value);
      Some(s[i..last.value + 1])
  }

  /** A span starts with `{` and ends with `}`. */
  lemma BraceSpanEnds(s: string)
    requires BraceSpan(s).Some?
    ensures var t := BraceSpan(s).value; |t| >= 2 && t[0] == '{' && t[|t| - 1] == '}'
  {
    var t := BraceSpan(s).value;
    var i: nat, j: nat :| OutermostBraces(s, i, j) && t == s[i..j + 1];
    assert t[0] == s[i] && t[|t| - 1] == s[j];
  }

  // ---------------------------------------------------------------------------------
  // Number()

  predicate AllDigits(s: string) {
    forall i :: 0 <= i < |s| ==> IsDigit(s[i])
  }

  /** The value of `ds` or `ds.fs` written in decimal. */
  function DecimalValue(ds: string, fs: string): real
    requires AllDigits(ds) && AllDigits(fs)
  {
    DigitsValue(ds) as real + DigitsValue(fs) as real / Pow10(|fs|) as real
  }

  /** An unsigned decimal literal: digits with an optional fraction, at least one digit. */
  function UnsignedDecimal(u: string): (r: Option<real>)
    ensures r.Some? ==> r.value >= 0.0
  {
    if u != "" && AllDigits(u) then Some(DigitsValue(u) as real)
    else
      var k := IndexOfChar(u, '.');
      if k == |u| then None
      else
        var ds, fs := u[..k], u[k + 1..];
        if AllDigits(ds) && AllDigits(fs) && (ds != "" || fs != "") then Some(DecimalValue(ds, fs))
        else None
  }

  /** `Number(s)` when it is finite; `None` when it is `NaN` or infinite. Surrounding
    * whitespace is ignored and an empty string is 0. */
  function StringToNumber(s: string): (r: Option<real>)
  {
    var t := Trim(s);
    if t == "" then Some(0.0)
    else if t[0] == '-' then
      var u := UnsignedDecimal(t[1..]);
      if u.Some? then Some(-u.value) else None
    else if t[0] == '+' then UnsignedDecimal(t[1..])
    else UnsignedDecimal(t)
  }

  /** `Number(x)` when `x` is an element of an array: `String` writes `null` as the empty
    * string, `true` and `false` as words, and a nested array as its elements joined by
    * commas; an empty array is the empty string. */
  function ElementToNumber(v: Json): Option<real> {
    match v
    case JNull => Some(0.0)
    case JBool(_) => None
    case JNum(n) => Some(n)
    case JString(s) => StringToNumber(s)
    case JArray(xs) =>
      if |xs| == 0 then Some(0.0)
      else if |xs| == 1 then ElementToNumber(xs[0])
      else None
    case JObject(_) => None
  }

  /** `Number(v)` when it is finite; `None` when it is `NaN` or infinite. An array becomes
    * the number of its string form: empty, its only element's, or, with two or more
    * elements, a string holding a comma, which is not a number. */
  function ToNumber(v: Json): (r: Option<real>) {
    match v
    case JBool(b) => Some(if b then 1.0 else 0.0)
    case _ => ElementToNumber(v)
  }

  /** `${x}` for a number: whole numbers are written out exactly, and `show` stands for
    * the shortest round-trip form of a number that is not whole. */
  function NumberText(x: real, show: real -> string): string {
    if x == x.Floor as real then
      if x >= 0.0 then NatToString(x.Floor) else "-" + NatToString(-x.Floor)
    else show(x)
  }

  /** `Number(`${n}`)` is `n`. */
  lemma NumberOfNatString(n: nat)
    ensures StringToNumber(NatToString(n)) == Some(n as real)
  {
    var s := NatToString(n);
    DigitsValueOfNat(n);
    assert IsDigit(s[0]);
    TrimOfTrimmed(s);
  }

  /** Whitespace around a number does not change it. */
  lemma NumberIgnoresPadding(w1: string, s: string, w2: string)
    requires AllSpace(w1) && AllSpace(w2)
    ensures StringToNumber(w1 + s + w2) == StringToNumber(s)
  {
    assert Trim(w1 + s + w2) == Trim(s) by {
      assert w1 + s + w2 == w1 + (s + w2);
      TrimSpacePrefix(w1, s + w2);
      TrimSpaceSuffix(s, w2);
    }
  }
}
