/** `src/utils/optionsParser.mjs`: removing a trailing `dependsOn:` clause from a prompt,
  * splitting an options string into tokens (bare words and quoted strings with escapes),
  * reading `key: value` pairs from the tokens, and the fallback that takes the whole text
  * as the value of one multi-line key. */
module OptionsParser {
  import opened Wrappers
  import opened Text
  import opened Keywords

  // ---------------------------------------------------------------------------------
  // stripDependsOn

  /** `\bdependsOn\s*:\s*` with the `i` flag */
  const DependsOn := Marker("dependsOn", true, true)

  /** `stripDependsOn(input)`: the text before the first `dependsOn:` marker, without its
    * trailing whitespace; the input itself when there is no marker. */
  function StripDependsOn(input: string): (r: string)
    ensures |r| <= |input| && r == input[..|r|]
    ensures FindMarker(input, DependsOn, 0).None? ==> r == input
    ensures FindMarker(input, DependsOn, 0).Some? ==> r == TrimEnd(input[..FindMarker(input, DependsOn, 0).value])
    ensures NoMarker(r, DependsOn)
  {
    if input == "" then ""
    else match FindMarker(input, DependsOn, 0)
      case None => input
      case Some(i) =>
        var r := TrimEnd(input[..i]);
        assert r == input[..|r|];
        forall j: nat ensures !MarkerAt(r, DependsOn, j) {
          if MarkerAt(r, DependsOn, j) {
            MarkerInPrefix(r, input, DependsOn, j);
          }
        }
        r
  }

  /** Stripping twice strips nothing more. */
  lemma StripDependsOnIdempotent(input: string)
    ensures StripDependsOn(StripDependsOn(input)) == StripDependsOn(input)
  {
    var r := StripDependsOn(input);
    if r != "" {
      assert FindMarker(r, DependsOn, 0).None?;
    }
  }

  // ---------------------------------------------------------------------------------
  // tokenizeKeyValueOptions

  const BadEscape := "Invalid escape sequence in options."
  const Unterminated := "Unterminated string literal in options."

  predicate IsQuote(c: char) { c == '"' || c == '\'' }

  /** The character `\c` stands for inside a quoted token. */
  function Unescape(c: char): (r: char)
    ensures c == 'n' ==> r == '\n'
    ensures c == 'r' ==> r == '\r'
    ensures c == 't' ==> r == '\t'
    ensures c !in "nrt" ==> r == c
  {
    if c == 'n' then '\n' else if c == 'r' then '\r' else if c == 't' then '\t' else c
  }

  /** A quoted token's value and the index just after its closing quote. */
  datatype Scanned = Scanned(value: string, next: nat)

  /** Reading a quoted token from `i`, just after its opening quote `quote`. */
  function ReadQuoted(s: string, quote: char, i: nat): (r: Result<Scanned>)
    requires i <= |s|
    ensures r.Ok? ==> i < r.value.next <= |s| && s[r.value.next - 1] == quote
    ensures r.Err? ==> r.message == BadEscape || r.message == Unterminated
    decreases |s| - i
  {
    if i == |s| then Err(Unterminated)
    else if s[i] == '\\' then
      if i + 1 >= |s| then Err(BadEscape)
      else Prefixed([Unescape(s[i + 1])], ReadQuoted(s, quote, i + 2))
    else if s[i] == quote then Ok(Scanned("", i + 1))
    else Prefixed([s[i]], ReadQuoted(s, quote, i + 1))
  }

  function Prefixed(v: string, r: Result<Scanned>): Result<Scanned> {
    if r.Ok? then Ok(Scanned(v + r.value.value, r.value.next)) else r
  }

  lemma PrefixedTwice(v: string, w: string, r: Result<Scanned>)
    ensures Prefixed(v, Prefixed(w, r)) == Prefixed(v + w, r)
    ensures Prefixed("", r) == r
  {
    if r.Ok? {
      assert v + (w + r.value.value) == (v + w) + r.value.value;
      assert "" + r.value.value == r.value.value;
    }
  }

  /** How a character is written inside a token quoted with `quote`: the backslash and the
    * quote are escaped, and so are the line feed, carriage return and tab (as `\n`, `\r`
    * and `\t`); any other character stands for itself. */
  function Escape(c: char, quote: char): (e: string)
    ensures 1 <= |e| <= 2
  {
    if c == '\\' || c == quote then ['\\', c]
    else if c == '\n' then "\\n"
    else if c == '\r' then "\\r"
    else if c == '\t' then "\\t"
    else [c]
  }

  /** A value written inside a token quoted with `quote`, without the quotes. */
  function Escaped(v: string, quote: char): string
    decreases |v|
  {
    if v == [] then [] else Escape(v[0], quote) + Escaped(v[1..], quote)
  }

  /** The tokenizer reads one escaped character back. */
  lemma ReadBackslash(s: string, quote: char, i: nat, d: char)
    requires i + 1 < |s| && s[i] == '\\' && s[i + 1] == d
    ensures ReadsAs(s, quote, i, [Unescape(d)], i + 2)
  {
  }

  lemma ReadPlain(s: string, quote: char, i: nat)
    requires i < |s| && s[i] != '\\' && s[i] != quote
    ensures ReadsAs(s, quote, i, [s[i]], i + 1)
  {
  }

  lemma EscapeStep(s: string, quote: char, i: nat, c: char, rest: string, j: nat)
    requires IsQuote(quote) && i <= |s| && s[i..] == Escape(c, quote) + rest
    requires j == i + |Escape(c, quote)|
    ensures j <= |s| && ReadsAs(s, quote, i, [c], j)
  {
    var e := Escape(c, quote);
    assert s[i..][..|e|] == e;
    if |e| == 2 {
      assert s[i] == '\\' && s[i + 1] == e[1];
      ReadBackslash(s, quote, i, e[1]);
    } else {
      assert s[i] == c;
      ReadPlain(s, quote, i);
    }
  }

  lemma EscapedCons(v: string, quote: char)
    requires v != []
    ensures Escaped(v, quote) == Escape(v[0], quote) + Escaped(v[1..], quote)
  {
  }

  lemma SplitAt(s: string, i: nat, a: string, b: string, tail: string)
    requires i <= |s| && s[i..] == (a + b) + tail
    ensures s[i..] == a + (b + tail)
    ensures i + |a| <= |s| && s[i + |a|..] == b + tail
  {
    assert (a + b) + tail == a + (b + tail);
    assert s[i + |a|..] == s[i..][|a|..];
  }

  /** Reading from `i` yields `v` followed by whatever reading from `k` yields. */
  predicate ReadsAs(s: string, quote: char, i: nat, v: string, k: nat)
    requires i <= |s| && k <= |s|
  {
    ReadQuoted(s, quote, i) == Prefixed(v, ReadQuoted(s, quote, k))
  }

  lemma ChainReads(s: string, quote: char, i: nat, j: nat, k: nat, c: char, u: string, v: string)
    requires i <= |s| && j <= |s| && k <= |s| && v == [c] + u
    requires ReadsAs(s, quote, i, [c], j) && ReadsAs(s, quote, j, u, k)
    ensures ReadsAs(s, quote, i, v, k)
  {
    PrefixedTwice([c], u, ReadQuoted(s, quote, k));
  }

  /** The first escaped character of a non-empty value is read back, and the rest of the
    * value's escapes follow it. */
  lemma EscapedHead(s: string, quote: char, i: nat, v: string, tail: string) returns (j: nat, k: nat)
    requires IsQuote(quote) && i <= |s| && s[i..] == Escaped(v, quote) + tail && v != []
    ensures k == i + |Escaped(v, quote)| && k <= |s|
    ensures j <= |s| && s[j..] == Escaped(v[1..], quote) + tail && k == j + |Escaped(v[1..], quote)|
    ensures ReadsAs(s, quote, i, [v[0]], j)
  {
    var e, w := Escape(v[0], quote), Escaped(v[1..], quote);
    EscapedCons(v, quote);
    SplitAt(s, i, e, w, tail);
    j, k := i + |e|, i + |e| + |w|;
    EscapeStep(s, quote, i, v[0], w + tail, j);
  }

  /** An escaped value is read back character by character, whatever follows it. */
  lemma {:induction false} ReadEscaped(s: string, quote: char, i: nat, v: string, tail: string, k: nat)
    requires IsQuote(quote) && i <= |s| && s[i..] == Escaped(v, quote) + tail
    requires k == i + |Escaped(v, quote)|
    ensures k <= |s| && ReadsAs(s, quote, i, v, k)
    decreases |v|
  {
    if v == [] {
      assert Escaped(v, quote) == [];
      PrefixedTwice(v, v, ReadQuoted(s, quote, i));
    } else {
      var j, k' := EscapedHead(s, quote, i, v, tail);
      ReadEscaped(s, quote, j, v[1..], tail, k);
      assert v == [v[0]] + v[1..];
      ChainReads(s, quote, i, j, k, v[0], v[1..], v);
    }
  }

  /** A value escaped and closed by its quote is read back exactly, ending after the quote. */
  lemma QuotedRoundTrip(v: string, quote: char, rest: string)
    requires IsQuote(quote)
    ensures ReadQuoted(Escaped(v, quote) + [quote] + rest, quote, 0)
            == Ok(Scanned(v, |Escaped(v, quote)| + 1))
  {
    var s := Escaped(v, quote) + [quote] + rest;
    var n := |Escaped(v, quote)|;
    assert s[0..] == Escaped(v, quote) + ([quote] + rest);
    ReadEscaped(s, quote, 0, v, [quote] + rest, n);
    assert s[n] == quote;
    assert v + "" == v;
  }

  /** A backslash as the last character is an invalid escape. */
  lemma QuotedTrailingBackslash(v: string, quote: char)
    requires IsQuote(quote)
    ensures ReadQuoted(Escaped(v, quote) + "\\", quote, 0) == Err(BadEscape)
  {
    var s := Escaped(v, quote) + "\\";
    assert s[0..] == Escaped(v, quote) + "\\";
    ReadEscaped(s, quote, 0, v, "\\", |Escaped(v, quote)|);
    assert s[|Escaped(v, quote)|] == '\\';
  }

  /** A value that is never closed by its quote is an unterminated string. */
  lemma QuotedUnterminated(v: string, quote: char)
    requires IsQuote(quote)
    ensures ReadQuoted(Escaped(v, quote), quote, 0) == Err(Unterminated)
  {
    var s := Escaped(v, quote);
    assert s[0..] == s + "";
    ReadEscaped(s, quote, 0, v, "", |s|);
  }

  /** Any value, quoted with its escapes, tokenizes back to itself as the only token. */
  lemma TokensOfQuoted(v: string, quote: char)
    requires IsQuote(quote)
    ensures Tokens([quote] + Escaped(v, quote) + [quote], 0) == Ok([v])
  {
    var s := [quote] + Escaped(v, quote) + [quote];
    var n := |Escaped(v, quote)|;
    assert s[0] == quote;
    assert !IsSpace(quote);
    assert SkipSpaces(s, 0) == 0;
    assert s[1..] == Escaped(v, quote) + [quote];
    ReadEscaped(s, quote, 1, v, [quote], n + 1);
    assert s[n + 1] == quote;
    assert v + "" == v;
    assert NextToken(s, 0) == Ok(Scanned(v, n + 2));
    assert SkipSpaces(s, n + 2) == n + 2;
    assert [v] + [] == [v];
  }

  /** The end of a bare token: the next whitespace character or the end. */
  function BareEnd(s: string, j: nat): (k: nat)
    requires j <= |s|
    ensures j <= k <= |s|
    ensures forall t :: j <= t < k ==> !IsSpace(s[t])
    ensures k < |s| ==> IsSpace(s[k])
    decreases |s| - j
  {
    if j < |s| && !IsSpace(s[j]) then BareEnd(s, j + 1) else j
  }

  /** The token starting at the non-space character `s[j]`: a quoted string, or a run of
    * non-space characters (never empty). */
  function NextToken(s: string, j: nat): (r: Result<Scanned>)
    requires j < |s| && !IsSpace(s[j])
    ensures r.Ok? ==> j < r.value.next <= |s|
  {
    if IsQuote(s[j]) then ReadQuoted(s, s[j], j + 1)
    else Ok(Scanned(s[j..BareEnd(s, j)], BareEnd(s, j)))
  }

  /** The tokens of `s` from index `i` on, or the error that stops the tokenizer. */
  function Tokens(s: string, i: nat): Result<seq<string>>
    requires i <= |s|
    decreases |s| - i
  {
    var j := SkipSpaces(s, i);
    if j == |s| then Ok([])
    else
      var t := NextToken(s, j);
      if t.Err? then Err(t.message)
      else Prepend([t.value.value], Tokens(s, t.value.next))
  }

  /** `r`'s list, if any, behind the elements `done` already collected. */
  function Prepend<T>(done: seq<T>, r: Result<seq<T>>): Result<seq<T>> {
    if r.Ok? then Ok(done + r.value) else r
  }

  lemma PrependTwice<T>(v: seq<T>, w: seq<T>, r: Result<seq<T>>)
    ensures Prepend(v, Prepend(w, r)) == Prepend(v + w, r)
    ensures Prepend([], r) == r
  {
    if r.Ok? {
      assert v + (w + r.value) == (v + w) + r.value;
      assert [] + r.value == r.value;
    }
  }

  method SkipWhitespace(s: string, i: nat) returns (j: nat)
    requires i <= |s|
    ensures j == SkipSpaces(s, i)
  {
    j := i;
    while j < |s| && IsSpace(s[j])
      invariant i <= j <= |s|
      invariant SkipSpaces(s, j) == SkipSpaces(s, i)
      decreases |s| - j
    {
      j := j + 1;
    }
  }

  /** The inner loop over a quoted token. */
  method ScanQuoted(s: string, quote: char, i: nat) returns (r: Result<Scanned>)
    requires i <= |s|
    ensures r == ReadQuoted(s, quote, i)
  {
    var index := i;
    var value := "";
    PrefixedTwice("", "", ReadQuoted(s, quote, i));
    while index < |s|
      invariant i <= index <= |s|
      invariant ReadQuoted(s, quote, i) == Prefixed(value, ReadQuoted(s, quote, index))
      decreases |s| - index
    {
      var c := s[index];
      if c == '\\' {
        if index + 1 >= |s| {
          return Err(BadEscape);
        }
        var e := Unescape(s[index + 1]);
        PrefixedTwice(value, [e], ReadQuoted(s, quote, index + 2));
        value := value + [e];
        index := index + 2;
      } else if c == quote {
        assert value + "" == value;
        return Ok(Scanned(value, index + 1));
      } else {
        PrefixedTwice(value, [c], ReadQuoted(s, quote, index + 1));
        value := value + [c];
        index := index + 1;
      }
    }
    return Err(Unterminated);
  }

  /** The inner loop over a bare token. */
  method ScanBare(s: string, j: nat) returns (value: string, k: nat)
    requires j <= |s|
    ensures k == BareEnd(s, j) && value == s[j..k]
  {
    k := j;
    value := "";
    while k < |s| && !IsSpace(s[k])
      invariant j <= k <= |s|
      invariant BareEnd(s, k) == BareEnd(s, j)
      invariant value == s[j..k]
      decreases |s| - k
    {
      value := value + [s[k]];
      k := k + 1;
    }
  }

  /** `tokenizeKeyValueOptions(input)` */
  method Tokenize(input: string) returns (r: Result<seq<string>>)
    ensures r == Tokens(input, 0)
  {
    var tokens: seq<string> := [];
    var index := 0;
    PrependTwice([], [], Tokens(input, 0));
    while index < |input|
      invariant index <= |input|
      invariant Tokens(input, 0) == Prepend(tokens, Tokens(input, index))
      decreases |input| - index
    {
      index := SkipWhitespace(input, index);
      if index >= |input| {
        break;
      }
      if IsQuote(input[index]) {
        var q := ScanQuoted(input, input[index], index + 1);
        if q.Err? {
          return Err(q.message);
        }
        PrependTwice(tokens, [q.value.value], Tokens(input, q.value.next));
        tokens := tokens + [q.value.value];
        index := q.value.next;
      } else {
        var value, k := ScanBare(input, index);
        PrependTwice(tokens, [value], Tokens(input, k));
        tokens := tokens + [value];
        index := k;
      }
    }
    assert tokens + [] == tokens;
    return Ok(tokens);
  }

  // ---------------------------------------------------------------------------------
  // parseKeyValueOptions

  const NoPairs := "Invalid options: no valid key-value pairs found."

  function UnknownKey(key: string): string { "Invalid options: unknown key " + key + "." }
  function MissingValue(key: string): string { "Invalid options: missing value for " + key + "." }

  /** The value of an option: repeatable keys collect an array. */
  datatype OptionValue = Single(text: string) | Many(texts: seq<string>)

  /** The options object. Only lookups by key read it, so its key order is not kept. */
  type Options = map<string, OptionValue>

  datatype Pair = Pair(key: string, value: string)

  /** The key a token names, when it ends with `:` and something is left once trimmed. */
  function KeyOf(token: string): (r: Option<string>)
    ensures r.Some? ==> IsTrimmed(r.value) && r.value != ""
  {
    if EndsWith(token, ":") && Trim(token[..|token| - 1]) != "" then Some(Trim(token[..|token| - 1]))
    else None
  }

  /** The pairs the loop consumes from token `i` on, or the error it throws. */
  function PairsFrom(tokens: seq<string>, i: nat, allowed: Option<set<string>>): Result<seq<Pair>>
    requires i <= |tokens|
    decreases |tokens| - i
  {
    if i == |tokens| then Ok([])
    else match KeyOf(tokens[i])
      case None => PairsFrom(tokens, i + 1, allowed)
      case Some(key) =>
        if allowed.Some? && key !in allowed.value then Err(UnknownKey(key))
        else if i + 1 == |tokens| then Err(MissingValue(key))
        else
          Prepend([Pair(key, tokens[i + 1])], PairsFrom(tokens, i + 2, allowed))
  }

  /** Every key read is trimmed and non-empty, and one of the allowed keys when there is
    * an allow-list. */
  lemma {:induction false} PairsFromKeys(tokens: seq<string>, i: nat, allowed: Option<set<string>>)
    requires i <= |tokens|
    ensures var r := PairsFrom(tokens, i, allowed);
      r.Ok? ==> forall p :: p in r.value ==>
        IsTrimmed(p.key) && p.key != "" && (allowed.Some? ==> p.key in allowed.value)
    decreases |tokens| - i
  {
    if i < |tokens| {
      match KeyOf(tokens[i])
      case None => PairsFromKeys(tokens, i + 1, allowed);
      case Some(key) =>
        if !(allowed.Some? && key !in allowed.value) && i + 1 < |tokens| {
          PairsFromKeys(tokens, i + 2, allowed);
        }
    }
  }

  /** A trimmed non-empty key followed by `:` names itself. */
  lemma KeyOfKey(key: string)
    requires IsTrimmed(key) && key != ""
    ensures KeyOf(key + ":") == Some(key)
  {
    assert (key + ":")[..|key|] == key;
    TrimOfTrimmed(key);
  }

  /** One assignment of the loop. */
  function Assign(m: Options, p: Pair, repeatable: set<string>): Options
  {
    if p.key in repeatable then
      if p.key in m && m[p.key].Many? then m[p.key := Many(m[p.key].texts + [p.value])]
      else m[p.key := Many([p.value])]
    else m[p.key := Single(p.value)]
  }

  /** The options object after assigning `pairs` in order. */
  function Collect(pairs: seq<Pair>, repeatable: set<string>): Options
    decreases |pairs|
  {
    if pairs == [] then map[]
    else Assign(Collect(pairs[..|pairs| - 1], repeatable), pairs[|pairs| - 1], repeatable)
  }

  /** One turn of the loop over the tokens, as `PairsFrom` sees it. */
  lemma PairsStep(ts: seq<string>, i: nat, allowed: Option<set<string>>, done: seq<Pair>)
    requires i < |ts|
    ensures KeyOf(ts[i]).None? ==>
      Prepend(done, PairsFrom(ts, i, allowed)) == Prepend(done, PairsFrom(ts, i + 1, allowed))
    ensures var key := KeyOf(ts[i]);
      key.Some? && allowed.Some? && key.value !in allowed.value ==>
        Prepend(done, PairsFrom(ts, i, allowed)) == Err(UnknownKey(key.value))
    ensures var key := KeyOf(ts[i]);
      key.Some? && !(allowed.Some? && key.value !in allowed.value) && i + 1 == |ts| ==>
        Prepend(done, PairsFrom(ts, i, allowed)) == Err(MissingValue(key.value))
    ensures var key := KeyOf(ts[i]);
      key.Some? && !(allowed.Some? && key.value !in allowed.value) && i + 1 < |ts| ==>
        Prepend(done, PairsFrom(ts, i, allowed))
          == Prepend(done + [Pair(key.value, ts[i + 1])], PairsFrom(ts, i + 2, allowed))
  {
    if KeyOf(ts[i]).Some? && i + 1 < |ts| {
      PrependTwice(done, [Pair(KeyOf(ts[i]).value, ts[i + 1])], PairsFrom(ts, i + 2, allowed));
    }
  }

  lemma CollectSnoc(done: seq<Pair>, p: Pair, repeatable: set<string>)
    ensures Collect(done + [p], repeatable) == Assign(Collect(done, repeatable), p, repeatable)
  {
    assert (done + [p])[..|done|] == done;
  }

  /** The values given to `key`, in order. */
  function ValuesOf(pairs: seq<Pair>, key: string): seq<string>
    decreases |pairs|
  {
    if pairs == [] then []
    else
      var p := pairs[|pairs| - 1];
      ValuesOf(pairs[..|pairs| - 1], key) + (if p.key == key then [p.value] else [])
  }

  /** `parseKeyValueOptions(optionsRaw, { allowedKeys, repeatableKeys })` */
  function ParsedOptions(raw: string, allowed: Option<set<string>>, repeatable: set<string>): (r: Result<Options>)
  {
    var trimmed := Trim(raw);
    if trimmed == "" then Ok(map[])
    else
      var tokens := Tokens(trimmed, 0);
      if tokens.Err? then Err(tokens.message)
      else OptionsOfTokens(tokens.value, allowed, repeatable)
  }

  /** What each key ends up holding: every value in order for a repeatable key, the last
    * one otherwise; keys never given are absent. */
  lemma {:induction false} CollectValues(pairs: seq<Pair>, repeatable: set<string>, key: string)
    ensures var vs := ValuesOf(pairs, key);
      (vs == [] ==> key !in Collect(pairs, repeatable))
      && (vs != [] ==>
            key in Collect(pairs, repeatable)
            && (key in repeatable ==> Collect(pairs, repeatable)[key] == Many(vs))
            && (key !in repeatable ==> Collect(pairs, repeatable)[key] == Single(vs[|vs| - 1])))
    decreases |pairs|
  {
    if pairs != [] {
      var init, p := pairs[..|pairs| - 1], pairs[|pairs| - 1];
      CollectValues(init, repeatable, key);
      var vs0 := ValuesOf(init, key);
      if p.key == key {
        assert ValuesOf(pairs, key) == vs0 + [p.value];
        if vs0 == [] {
          assert ValuesOf(pairs, key) == [p.value];
        }
      } else {
        assert ValuesOf(pairs, key) == vs0;
      }
    }
  }

  /** The pairs of a token list gathered into options, or the error thrown on the way. */
  function OptionsOfTokens(ts: seq<string>, allowed: Option<set<string>>, repeatable: set<string>): Result<Options> {
    var pairs := PairsFrom(ts, 0, allowed);
    if pairs.Err? then Err(pairs.message)
    else if pairs.value == [] then Err(NoPairs)
    else Ok(Collect(pairs.value, repeatable))
  }

  /** The loop of `parseKeyValueOptions` over the tokens. */
  method CollectOptions(ts: seq<string>, allowed: Option<set<string>>, repeatable: set<string>)
    returns (r: Result<Options>)
    ensures r == OptionsOfTokens(ts, allowed, repeatable)
  {
    var options: Options := map[];
    ghost var done: seq<Pair> := [];
    var foundPair := false;
    var index := 0;
    PrependTwice([], [], PairsFrom(ts, 0, allowed));
    while index < |ts|
      invariant index <= |ts|
      invariant PairsFrom(ts, 0, allowed) == Prepend(done, PairsFrom(ts, index, allowed))
      invariant options == Collect(done, repeatable)
      invariant foundPair <==> done != []
      decreases |ts| - index
    {
      var key := KeyOf(ts[index]);
      PairsStep(ts, index, allowed, done);
      if key.Some? {
        var k := key.value;
        if allowed.Some? && k !in allowed.value {
          return Err(UnknownKey(k));
        }
        if index + 1 >= |ts| {
          return Err(MissingValue(k));
        }
        var p := Pair(k, ts[index + 1]);
        foundPair := true;
        options := Assign(options, p, repeatable);
        CollectSnoc(done, p, repeatable);
        done := done + [p];
        index := index + 1;
      }
      index := index + 1;
    }
    assert done + [] == done;
    if !foundPair {
      return Err(NoPairs);
    }
    return Ok(options);
  }

  /** `parseKeyValueOptions(optionsRaw, { allowedKeys, repeatableKeys })` */
  method ParseKeyValueOptions(raw: string, allowed: Option<set<string>>, repeatable: set<string>)
    returns (r: Result<Options>)
    ensures r == ParsedOptions(raw, allowed, repeatable)
  {
    var trimmed := Trim(raw);
    if trimmed == "" {
      return Ok(map[]);
    }
    var tokens := Tokenize(trimmed);
    if tokens.Err? {
      return Err(tokens.message);
    }
    r := CollectOptions(tokens.value, allowed, repeatable);
  }

  // ---------------------------------------------------------------------------------
  // Round trip: options written as `key: value ...`

  /** Bare words: non-empty, no whitespace, not opening a quote. */
  predicate BareWord(w: string) {
    w != [] && !IsQuote(w[0]) && forall t :: 0 <= t < |w| ==> !IsSpace(w[t])
  }

  /** Every word of `ws` is bare. */
  predicate AllBare(ws: seq<string>) {
    ws == [] || (BareWord(ws[0]) && AllBare(ws[1..]))
  }

  /** The tokens that write `pairs` out: `key:` followed by the value. */
  function PairTokens(pairs: seq<Pair>): (r: seq<string>)
    ensures |r| == 2 * |pairs|
  {
    if pairs == [] then [] else [pairs[0].key + ":", pairs[0].value] + PairTokens(pairs[1..])
  }

  /** Skipping whitespace before `i` changes nothing. */
  lemma TokensAfterSpace(s: string, i: nat)
    requires i < |s| && IsSpace(s[i])
    ensures Tokens(s, i) == Tokens(s, i + 1)
  {}

  /** A bare word at `i` is the next token. */
  lemma TokensBareStep(s: string, i: nat, k: nat)
    requires i < k <= |s| && !IsQuote(s[i])
    requires forall t :: i <= t < k ==> !IsSpace(s[t])
    requires k < |s| ==> IsSpace(s[k])
    ensures Tokens(s, i) == Prepend([s[i..k]], Tokens(s, k))
  {
    assert SkipSpaces(s, i) == i;
    BareEndOver(s, i, k);
  }

  /** A bare token, a whitespace character, then what tokenizes as `rest`. */
  lemma TokensWordThenRest(s: string, i: nat, k: nat, rest: seq<string>, all: seq<string>)
    requires i < k < |s| && !IsQuote(s[i]) && IsSpace(s[k])
    requires forall t :: i <= t < k ==> !IsSpace(s[t])
    requires Tokens(s, k + 1) == Ok(rest) && all == [s[i..k]] + rest
    ensures Tokens(s, i) == Ok(all)
  {
    TokensBareStep(s, i, k);
    TokensAfterSpace(s, k);
  }

  /** A bare word running to the end is the last token. */
  lemma TokensLastWord(s: string, i: nat, all: seq<string>)
    requires i < |s| && !IsQuote(s[i])
    requires forall t :: i <= t < |s| ==> !IsSpace(s[t])
    requires all == [s[i..|s|]]
    ensures Tokens(s, i) == Ok(all)
  {
    TokensBareStep(s, i, |s|);
    assert Tokens(s, |s|) == Ok([]);
    assert all + [] == all;
  }

  /** A bare word written at `i` covers non-space characters, the first not a quote. */
  lemma BareWordAt(s: string, i: nat, w: string)
    requires i + |w| <= |s| && s[i..i + |w|] == w && BareWord(w)
    ensures i < |s| && !IsQuote(s[i])
    ensures forall t :: i <= t < i + |w| ==> !IsSpace(s[t])
  {
    forall t | i <= t < i + |w| ensures !IsSpace(s[t]) {
      assert s[t] == s[i..i + |w|][t - i] == w[t - i];
    }
    assert s[i] == s[i..i + |w|][0] == w[0];
  }

  /** How words joined by single spaces lie in `s` from `i`: the first word comes first,
    * and, unless it is the only one, a space and the others follow it. */
  lemma WordsJoined(s: string, i: nat, ws: seq<string>)
    requires i <= |s| && s[i..] == Join(ws, " ") && ws != []
    ensures i + |ws[0]| <= |s| && s[i..i + |ws[0]|] == ws[0]
    ensures |ws| == 1 ==> i + |ws[0]| == |s|
    ensures |ws| > 1 ==>
      i + |ws[0]| < |s| && s[i + |ws[0]|] == ' ' && s[i + |ws[0]| + 1..] == Join(ws[1..], " ")
  {
    var w := ws[0];
    var k := i + |w|;
    if |ws| > 1 {
      var tail := Join(ws[1..], " ");
      assert s[i..] == w + " " + tail;
      assert s[k..] == s[i..][|w|..];
      assert s[k..] == " " + tail;
      assert s[k + 1..] == s[k..][1..];
    } else {
      assert s[i..] == w;
    }
    assert s[i..k] == s[i..][..|w|];
  }

  /** The facts the tokenizer needs about the first of the bare words written from `i`. */
  lemma WordsLayout(s: string, i: nat, ws: seq<string>)
    requires i <= |s| && s[i..] == Join(ws, " ") && ws != [] && BareWord(ws[0])
    ensures i + |ws[0]| <= |s| && ws == [s[i..i + |ws[0]|]] + ws[1..]
    ensures i < |s| && !IsQuote(s[i])
    ensures forall t :: i <= t < i + |ws[0]| ==> !IsSpace(s[t])
    ensures |ws| == 1 ==> i + |ws[0]| == |s|
    ensures |ws| > 1 ==>
      i + |ws[0]| < |s| && IsSpace(s[i + |ws[0]|]) && s[i + |ws[0]| + 1..] == Join(ws[1..], " ")
  {
    WordsJoined(s, i, ws);
    BareWordAt(s, i, ws[0]);
    assert [ws[0]] + ws[1..] == ws;
  }

  /** Bare words separated by single spaces come back as the words. */
  lemma {:induction false} TokensOfWords(s: string, i: nat, ws: seq<string>)
    requires i <= |s| && s[i..] == Join(ws, " ") && AllBare(ws)
    ensures Tokens(s, i) == Ok(ws)
    decreases |ws|
  {
    if ws == [] {
      assert i == |s|;
      assert Tokens(s, i) == Ok(ws);
    } else {
      WordsLayout(s, i, ws);
      if |ws| == 1 {
        TokensLastWord(s, i, ws);
      } else {
        TokensOfWords(s, i + |ws[0]| + 1, ws[1..]);
        TokensWordThenRest(s, i, i + |ws[0]|, ws[1..], ws);
      }
    }
  }

  /** A bare token ends at the first whitespace. */
  lemma {:induction false} BareEndOver(s: string, j: nat, k: nat)
    requires j <= k <= |s|
    requires forall t :: j <= t < k ==> !IsSpace(s[t])
    requires k < |s| ==> IsSpace(s[k])
    ensures BareEnd(s, j) == k
    decreases k - j
  {
    if j < k {
      BareEndOver(s, j + 1, k);
    }
  }

  /** Written-out pairs are read back as the same pairs. */
  lemma {:induction false} PairsOfPairTokens(pairs: seq<Pair>, allowed: Option<set<string>>)
    requires forall p :: p in pairs ==> IsTrimmed(p.key) && p.key != ""
    requires allowed.Some? ==> forall p :: p in pairs ==> p.key in allowed.value
    ensures PairsFrom(PairTokens(pairs), 0, allowed) == Ok(pairs)
    decreases |pairs|
  {
    if pairs != [] {
      var ts := PairTokens(pairs);
      KeyOfKey(pairs[0].key);
      PairsOfPairTokens(pairs[1..], allowed);
      PairsFromShift(ts, 2, PairTokens(pairs[1..]), allowed);
      assert [pairs[0]] + pairs[1..] == pairs;
    }
  }

  /** `PairsFrom` only looks at the tokens from `i` on. */
  lemma {:induction false} PairsFromShift(ts: seq<string>, i: nat, rest: seq<string>, allowed: Option<set<string>>)
    requires i <= |ts| && ts[i..] == rest
    ensures PairsFrom(ts, i, allowed) == PairsFrom(rest, 0, allowed)
    decreases |ts| - i
  {
    if i < |ts| {
      assert ts[i] == rest[0];
      assert ts[i + 1..] == rest[1..];
      PairsFromShift(ts, i + 1, rest[1..], allowed);
      PairsFromShift(rest, 1, rest[1..], allowed);
      if i + 1 < |ts| {
        assert ts[i + 2..] == rest[2..];
        PairsFromShift(ts, i + 2, rest[2..], allowed);
        PairsFromShift(rest, 2, rest[2..], allowed);
      }
    }
  }

  /** Options written as `key: value key: value ...`, with bare keys and values, parse
    * back to the options those pairs assign. */
  lemma OptionsRoundTrip(pairs: seq<Pair>, allowed: Option<set<string>>, repeatable: set<string>)
    requires pairs != []
    requires forall p :: p in pairs ==> BareWord(p.key) && BareWord(p.value)
    requires allowed.Some? ==> forall p :: p in pairs ==> p.key in allowed.value
    ensures ParsedOptions(Join(PairTokens(pairs), " "), allowed, repeatable) == Ok(Collect(pairs, repeatable))
  {
    var ts := PairTokens(pairs);
    var s := Join(ts, " ");
    forall p | p in pairs ensures BareWord(p.key + ":") {
      var w := p.key + ":";
      assert forall t :: 0 <= t < |p.key| ==> p.key[t] == w[t];
    }
    PairTokensBare(pairs);
    JoinBareTrimmed(ts);
    TrimOfTrimmed(s);
    assert s[0..] == s;
    TokensOfWords(s, 0, ts);
    PairsOfPairTokens(pairs, allowed);
  }

  lemma {:induction false} PairTokensBare(pairs: seq<Pair>)
    requires forall p :: p in pairs ==> BareWord(p.key + ":") && BareWord(p.value)
    ensures AllBare(PairTokens(pairs))
    decreases |pairs|
  {
    if pairs != [] {
      var ts := PairTokens(pairs);
      assert pairs[0] in pairs;
      assert forall p :: p in pairs[1..] ==> p in pairs;
      PairTokensBare(pairs[1..]);
      assert ts[1..][1..] == PairTokens(pairs[1..]);
    }
  }

  /** Bare words joined by spaces neither start nor end with whitespace. */
  lemma {:induction false} JoinBareTrimmed(ws: seq<string>)
    requires ws != [] && AllBare(ws)
    ensures var s := Join(ws, " "); s != [] && !IsSpace(s[0]) && !IsSpace(s[|s| - 1])
    decreases |ws|
  {
    if |ws| > 1 {
      JoinBareTrimmed(ws[1..]);
      var tail := Join(ws[1..], " ");
      assert Join(ws, " ") == ws[0] + " " + tail;
    }
  }

  // ---------------------------------------------------------------------------------
  // parseKeyValueOptionsWithMultiline

  predicate IsKeyChar(c: char) { IsAlnum(c) || c == '_' || c == '-' }

  /** The end of the run of `[A-Za-z0-9_-]` characters from `j`. */
  function KeyRunEnd(s: string, j: nat): (k: nat)
    requires j <= |s|
    ensures j <= k <= |s|
    ensures forall t :: j <= t < k ==> IsKeyChar(s[t])
    ensures k < |s| ==> !IsKeyChar(s[k])
    decreases |s| - j
  {
    if j < |s| && IsKeyChar(s[j]) then KeyRunEnd(s, j + 1) else j
  }

  /** The match of the expression `^([A-Za-z0-9_-]+)\s*:\s*` on `t`: the key and the length of the
    * whole match (key, spaces, colon, spaces). */
  function KeyPrefix(t: string): (r: Option<(string, nat)>)
    ensures r.Some? ==>
      var (key, n) := r.value;
      0 < |key| < n <= |t| && key == t[..|key|]
      && (forall i :: 0 <= i < |key| ==> IsKeyChar(key[i]))
      && (|key| < |t| ==> !IsKeyChar(t[|key|]))
      && (exists c :: |key| <= c < n && t[c] == ':'
            && (forall i :: |key| <= i < n ==> i == c || IsSpace(t[i])))
      && (n < |t| ==> !IsSpace(t[n]))
    ensures r.None? ==>
      var k := KeyRunEnd(t, 0);
      k == 0 || SkipSpaces(t, k) == |t| || t[SkipSpaces(t, k)] != ':'
  {
    var k := KeyRunEnd(t, 0);
    if k == 0 then None
    else
      var c := SkipSpaces(t, k);
      if c == |t| || t[c] != ':' then None
      else
        var n := SkipSpaces(t, c + 1);
        assert forall i :: k <= i < n ==> i == c || IsSpace(t[i]);
        Some((t[..k], n))
  }

  /** The fallback applies to `key`: allowed, when there is an allow-list, and multi-line. */
  predicate MultilineApplies(key: string, allowed: Option<set<string>>, multiline: set<string>) {
    (allowed.None? || key in allowed.value) && key in multiline
  }

  /** `parseKeyValueOptionsWithMultiline(optionsRaw, { allowedKeys, repeatableKeys,
    * multilineKeys })`: when the strict parser throws and the trimmed text starts with
    * `key:` for an allowed multi-line key, everything after that prefix is the key's value;
    * in every other case the strict result, error included, is returned unchanged. */
  function ParsedWithMultiline(raw: string, allowed: Option<set<string>>, repeatable: set<string>,
                               multiline: set<string>): (r: Result<Options>)
    ensures ParsedOptions(raw, allowed, repeatable).Ok? ==> r == ParsedOptions(raw, allowed, repeatable)
    ensures (ParsedOptions(raw, allowed, repeatable).Err?
             && (KeyPrefix(Trim(raw)).None? || !MultilineApplies(KeyPrefix(Trim(raw)).value.0, allowed, multiline)))
      ==> r == ParsedOptions(raw, allowed, repeatable)
    ensures (ParsedOptions(raw, allowed, repeatable).Err? && KeyPrefix(Trim(raw)).Some?
             && MultilineApplies(KeyPrefix(Trim(raw)).value.0, allowed, multiline))
      ==> var (key, n) := KeyPrefix(Trim(raw)).value;
        (n == |Trim(raw)| ==> r == Err(MissingValue(key)))
        && (n < |Trim(raw)| ==> r == Ok(map[key := Single(Trim(raw)[n..])]))
    ensures r.Ok? && ParsedOptions(raw, allowed, repeatable).Err? ==>
      exists key :: key in multiline && (allowed.Some? ==> key in allowed.value)
        && r.value.Keys == {key} && r.value[key].Single? && r.value[key].text != ""
  {
    var strict := ParsedOptions(raw, allowed, repeatable);
    if strict.Ok? then strict
    else
      var t := Trim(raw);
      match KeyPrefix(t)
      case None => strict
      case Some((key, n)) =>
        if !MultilineApplies(key, allowed, multiline) then strict
        else
          var value := t[n..];
          if value == "" then Err(MissingValue(key))
          else Ok(map[key := Single(value)])
  }

  /** A text `key: value` for an allowed multi-line key that the strict parser rejects is
    * taken as the whole value. */
  lemma MultilineFallback(key: string, value: string, allowed: Option<set<string>>,
                          repeatable: set<string>, multiline: set<string>)
    requires key != [] && forall t :: 0 <= t < |key| ==> IsKeyChar(key[t])
    requires IsTrimmed(value) && value != ""
    requires key in multiline && (allowed.Some? ==> key in allowed.value)
    requires ParsedOptions(key + ": " + value, allowed, repeatable).Err?
    ensures ParsedWithMultiline(key + ": " + value, allowed, repeatable, multiline)
         == Ok(map[key := Single(value)])
  {
    MarkerLayout(key, value);
  }

  /** How `key: value` reads: trimmed, the key run ends at the colon, the value starts after
    * the single space. */
  lemma MarkerLayout(key: string, value: string)
    requires key != [] && forall t :: 0 <= t < |key| ==> IsKeyChar(key[t])
    requires IsTrimmed(value) && value != ""
    ensures var t, n := key + ": " + value, |key|;
      Trim(t) == t && KeyRunEnd(t, 0) == n && SkipSpaces(t, n) == n && t[n] == ':'
      && SkipSpaces(t, n + 1) == n + 2 && t[..n] == key && t[n + 2..] == value
  {
    var t := key + ": " + value;
    assert IsTrimmed(t) by {
      assert t[0] == key[0];
      assert t[|t| - 1] == value[|value| - 1];
    }
    TrimOfTrimmed(t);
    var n := |key|;
    assert t[n] == ':' && t[n + 1] == ' ' && t[n + 2] == value[0];
    KeyRunEndAt(t, n);
    assert SkipSpaces(t, n) == n;
    assert SkipSpaces(t, n + 1) == SkipSpaces(t, n + 2);
    assert t[..n] == key;
    assert t[n + 2..] == value;
  }

  lemma {:induction false} KeyRunEndAt(t: string, n: nat)
    requires n < |t| && !IsKeyChar(t[n])
    requires forall i :: 0 <= i < n ==> IsKeyChar(t[i])
    ensures KeyRunEnd(t, 0) == n
  {
    KeyRunEndFrom(t, 0, n);
  }

  lemma {:induction false} KeyRunEndFrom(t: string, j: nat, n: nat)
    requires j <= n < |t| && !IsKeyChar(t[n])
    requires forall i :: j <= i < n ==> IsKeyChar(t[i])
    ensures KeyRunEnd(t, j) == n
    decreases n - j
  {
    if j < n {
      KeyRunEndFrom(t, j + 1, n);
    }
  }
}
