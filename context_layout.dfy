/** The layout half of `context.mjs` in both copies of the context loader: the
  * identifier made from a path (`buildSafeBaseName`), the here-document token that does
  * not clash with the content (`buildHereDocToken`), and the assign statements built from
  * the map of read files (`buildContextAssignString`). `path.relative(process.cwd(),
  * resolve(p))` and `randomUUID()` are parameters. */
module ContextLayout {
  import opened Wrappers
  import opened Text
  import opened OrderedMaps
  import opened Listing

  // ---------------------------------------------------------------------------------
  // buildSafeBaseName

  /** The path without its trailing slashes. */
  function DropTrailingSlashes(p: string): (r: string)
    ensures |r| <= |p| && r == p[..|r|]
    ensures r == [] || r[|r| - 1] != '/'
  {
    if p != [] && p[|p| - 1] == '/' then DropTrailingSlashes(p[..|p| - 1]) else p
  }

  /** `path.basename(p)`: the last segment, trailing slashes ignored. */
  function BaseName(p: string): (r: string)
    ensures '/' !in r
  {
    var segs := Split(DropTrailingSlashes(p), '/');
    segs[|segs| - 1]
  }

  /** The index of the last `.` of `s`, if any. */
  function LastDot(s: string): (r: Option<nat>)
    ensures r.Some? ==> r.value < |s| && s[r.value] == '.'
    ensures r.Some? ==> forall i :: r.value < i < |s| ==> s[i] != '.'
    ensures r.None? ==> forall i :: 0 <= i < |s| ==> s[i] != '.'
  {
    if s == [] then None
    else if s[|s| - 1] == '.' then Some(|s| - 1)
    else LastDot(s[..|s| - 1])
  }

  predicate AllDots(s: string) {
    forall i :: 0 <= i < |s| ==> s[i] == '.'
  }

  /** `path.extname(name)` for a name without `/`: from the last `.` on, except when
    * nothing but dots comes before that `.` and it is the first character, or the name is
    * `..`. */
  function ExtName(name: string): (r: string)
    ensures |r| <= |name| && r == name[|name| - |r|..]
    ensures r != "" ==> r[0] == '.'
  {
    match LastDot(name)
    case None => ""
    case Some(d) =>
      if d == 0 then ""
      else if AllDots(name[..d]) && d == 1 && d == |name| - 1 then ""
      else name[d..]
  }

  /** `withoutExt.replace(/[^A-Za-z0-9]+/g, '_')`: each run of other characters becomes
    * one underscore. */
  function Collapse(s: string): (r: string)
    ensures forall i :: 0 <= i < |r| ==> IsWordChar(r[i])
    decreases |s|
  {
    if s == [] then []
    else if IsAlnum(s[0]) then [s[0]] + Collapse(s[1..])
    else "_" + Collapse(SkipOthers(s))
  }

  /** `s` after its leading run of characters other than ASCII letters and digits. */
  function SkipOthers(s: string): (r: string)
    ensures |r| <= |s| && r == s[|s| - |r|..]
    ensures r == [] || IsAlnum(r[0])
  {
    if s != [] && !IsAlnum(s[0]) then
      var r := SkipOthers(s[1..]);
      assert s[1..][|s| - 1 - |r|..] == s[|s| - |r|..];
      r
    else s
  }

  /** `.replace(/^_+|_+$/g, '')` */
  function TrimUnderscores(s: string): (r: string)
    ensures |r| <= |s|
    ensures r != [] ==> r[0] != '_' && r[|r| - 1] != '_'
    ensures forall i :: 0 <= i < |r| ==> r[i] in s
  {
    if s != [] && s[0] == '_' then TrimUnderscores(s[1..])
    else if s != [] && s[|s| - 1] == '_' then TrimUnderscores(s[..|s| - 1])
    else s
  }

  /** `fileName.slice(0, -ext.length)` when there is an extension. */
  function WithoutExt(fileName: string): string {
    var ext := ExtName(fileName);
    if ext != "" then fileName[..|fileName| - |ext|] else fileName
  }

  /** The two replacements: runs of other characters to `_`, then the outer `_` dropped. */
  function Normalized(withoutExt: string): (r: string)
    ensures forall i :: 0 <= i < |r| ==> IsWordChar(r[i])
  {
    var c := Collapse(withoutExt);
    var r := TrimUnderscores(c);
    assert forall i :: 0 <= i < |r| ==> IsWordChar(r[i]) by {
      forall i | 0 <= i < |r| ensures IsWordChar(r[i]) {
        var j :| 0 <= j < |c| && c[j] == r[i];
      }
    }
    r
  }

  /** `file` for nothing, and `F_` in front of anything not starting with a letter. */
  function Safe(normalized: string): string {
    var base := if normalized != "" then normalized else "file";
    if IsAsciiLetter(base[0]) then base else "F_" + base
  }

  /** The identifier part of `buildSafeBaseName(filePath)`. */
  function SafeStem(filePath: string): string {
    Safe(Normalized(WithoutExt(BaseName(filePath))))
  }

  /** `buildSafeBaseName(filePath)` with its default prefix `spec_`. */
  function SafeBaseName(filePath: string): string {
    "spec_" + SafeStem(filePath)
  }

  predicate IsIdentifier(x: string) {
    x != [] && IsAsciiLetter(x[0]) && forall i :: 0 <= i < |x| ==> IsWordChar(x[i])
  }

  /** The name is `spec_` followed by an identifier: letters, digits and underscores,
    * starting with a letter. */
  lemma SafeBaseNameIsIdentifier(filePath: string)
    ensures IsIdentifier(SafeStem(filePath))
  {
    SafeIsIdentifier(Normalized(WithoutExt(BaseName(filePath))));
  }

  lemma SafeIsIdentifier(n: string)
    requires forall i :: 0 <= i < |n| ==> IsWordChar(n[i])
    ensures IsIdentifier(Safe(n))
  {
    var base := if n != "" then n else "file";
    if !IsAsciiLetter(base[0]) {
      var r := "F_" + base;
      forall i | 0 <= i < |r| ensures IsWordChar(r[i]) {
        if i >= 2 { assert r[i] == base[i - 2]; }
      }
    }
  }

  /** A name made of ASCII letters and digits only passes through unchanged. */
  lemma {:induction false} CollapseAlnum(s: string)
    requires forall i :: 0 <= i < |s| ==> IsAlnum(s[i])
    ensures Collapse(s) == s
    decreases |s|
  {
    if s != [] {
      CollapseAlnum(s[1..]);
      assert [s[0]] + s[1..] == s;
    }
  }

  /** The base name of `dir/stem.ext`, for a stem of letters and digits that starts with a
    * letter and an extension of letters and digits, is `spec_stem`. */
  lemma SafeBaseNameOfPlainFile(dir: string, stem: string, ext: string)
    requires stem != [] && IsAsciiLetter(stem[0]) && forall i :: 0 <= i < |stem| ==> IsAlnum(stem[i])
    requires forall i :: 0 <= i < |ext| ==> IsAlnum(ext[i])
    ensures SafeBaseName(dir + "/" + stem + "." + ext) == "spec_" + stem
  {
    var p := dir + "/" + stem + "." + ext;
    var name := stem + "." + ext;
    assert p == dir + "/" + name;
    BaseNameOfPlain(dir, name);
    WithoutExtOfPlain(stem, ext);
    NormalizedAlnum(stem);
    assert SafeStem(p) == Safe(stem);
  }

  lemma NormalizedAlnum(stem: string)
    requires stem != [] && forall i :: 0 <= i < |stem| ==> IsAlnum(stem[i])
    ensures Normalized(stem) == stem
  {
    CollapseAlnum(stem);
    assert TrimUnderscores(stem) == stem by {
      assert IsAlnum(stem[0]) && IsAlnum(stem[|stem| - 1]);
    }
  }

  lemma BaseNameOfPlain(dir: string, name: string)
    requires name != [] && '/' !in name && name[|name| - 1] != '/'
    ensures BaseName(dir + "/" + name) == name
  {
    var p := dir + "/" + name;
    assert p[|p| - 1] == name[|name| - 1];
    assert DropTrailingSlashes(p) == p;
    assert p == dir + ['/'] + name;
    NoSlashIsLastSegment(dir, name);
  }

  lemma WithoutExtOfPlain(stem: string, ext: string)
    requires stem != [] && IsAsciiLetter(stem[0])
    requires forall i :: 0 <= i < |ext| ==> IsAlnum(ext[i])
    ensures WithoutExt(stem + "." + ext) == stem
  {
    var name := stem + "." + ext;
    LastDotAfter(stem, ext);
    assert name[|stem|..] == "." + ext;
    assert name[..|stem|][0] == stem[0];
    assert ExtName(name) == "." + ext;
    assert name[..|name| - |ext| - 1] == stem;
  }

  /** The last segment of a path ending in a segment without `/` is that segment. */
  lemma {:induction false} NoSlashIsLastSegment(dir: string, name: string)
    requires '/' !in name
    ensures var segs := Split(dir + ['/'] + name, '/'); segs[|segs| - 1] == name
    decreases |dir|
  {
    var ps := dir + ['/'] + name;
    if dir == [] {
      assert ps == ['/'] + name;
      assert ps[1..] == name;
      SplitNoSep(name, '/');
    } else {
      assert ps[1..] == dir[1..] + ['/'] + name;
      NoSlashIsLastSegment(dir[1..], name);
      var t := Split(ps[1..], '/');
      if ps[0] != '/' && |t| == 1 {
        // the segment after the first `/` is never the first one
        LastSegmentOfSlash(dir[1..], name);
      }
    }
  }

  /** Splitting a text with a `/` in it gives at least two segments. */
  lemma {:induction false} LastSegmentOfSlash(dir: string, name: string)
    ensures |Split(dir + ['/'] + name, '/')| >= 2
    decreases |dir|
  {
    var ps := dir + ['/'] + name;
    if dir == [] {
      assert ps[0] == '/';
    } else {
      assert ps[1..] == dir[1..] + ['/'] + name;
      LastSegmentOfSlash(dir[1..], name);
    }
  }

  lemma {:induction false} LastDotAfter(stem: string, ext: string)
    requires forall i :: 0 <= i < |ext| ==> IsAlnum(ext[i])
    ensures LastDot(stem + "." + ext) == Some(|stem|)
    decreases |ext|
  {
    var s := stem + "." + ext;
    if ext != [] {
      assert s[..|s| - 1] == stem + "." + ext[..|ext| - 1];
      assert IsAlnum(ext[|ext| - 1]);
      LastDotAfter(stem, ext[..|ext| - 1]);
    }
  }

  // ---------------------------------------------------------------------------------
  // buildHereDocToken

  function Begin(token: string): string { "--begin-" + token + "--" }
  function End(token: string): string { "--end-" + token + "--" }

  /** The content already holds one of the token's delimiter lines. */
  predicate Clashes(content: string, token: string) {
    Contains(content, Begin(token)) || Contains(content, End(token))
  }

  /** `base` for `counter` 0, `${base}-${counter}` after. */
  function Token(base: string, counter: nat): string {
    if counter == 0 then base else base + "-" + NatToString(counter)
  }

  /** A counter with more digits than the content is long never clashes. */
  lemma FarCounterIsFree(content: string, base: string)
    ensures !Clashes(content, Token(base, Pow10(|content|)))
  {
    NatToStringLength(Pow10(|content|), |content|);
    NotContainsLonger(content, Begin(Token(base, Pow10(|content|))));
    NotContainsLonger(content, End(Token(base, Pow10(|content|))));
  }

  /** The counter the loop stops at, searching upwards from `counter`. */
  function FreeCounter(content: string, base: string, counter: nat): (k: nat)
    requires counter <= Pow10(|content|)
    decreases Pow10(|content|) - counter
  {
    if !Clashes(content, Token(base, counter)) then counter
    else
      FarCounterIsFree(content, base);
      FreeCounter(content, base, counter + 1)
  }

  /** The search finds the least counter from `counter` on whose token does not clash. */
  lemma {:induction false} FreeCounterIsLeast(content: string, base: string, counter: nat)
    requires counter <= Pow10(|content|)
    ensures var k := FreeCounter(content, base, counter);
      counter <= k <= Pow10(|content|) && !Clashes(content, Token(base, k))
      && forall j :: counter <= j < k ==> Clashes(content, Token(base, j))
    decreases Pow10(|content|) - counter
  {
    if Clashes(content, Token(base, counter)) {
      FarCounterIsFree(content, base);
      FreeCounterIsLeast(content, base, counter + 1);
      var k := FreeCounter(content, base, counter + 1);
      assert FreeCounter(content, base, counter) == k;
      forall j | counter <= j < k ensures Clashes(content, Token(base, j)) {
        if j == counter {
        }
      }
    }
  }

  /** `buildHereDocToken(content, base)`: the loop that counts up until neither delimiter
    * line occurs in the content. */
  method HereDocToken(content: string, base: string) returns (token: string)
    ensures token == Token(base, FreeCounter(content, base, 0))
  {
    token := base;
    var counter: nat := 0;
    FarCounterIsFree(content, base);
    while Contains(content, Begin(token)) || Contains(content, End(token))
      invariant counter <= Pow10(|content|)
      invariant token == Token(base, counter)
      invariant FreeCounter(content, base, counter) == FreeCounter(content, base, 0)
      decreases Pow10(|content|) - counter
    {
      counter := counter + 1;
      token := base + "-" + NatToString(counter);
    }
  }

  /** The token returned is `base` or `base-k` for the least `k` whose delimiter lines do
    * not occur in the content. */
  lemma HereDocTokenIsLeast(content: string, base: string)
    ensures var k := FreeCounter(content, base, 0);
      !Clashes(content, Token(base, k)) && forall j :: 0 <= j < k ==> Clashes(content, Token(base, j))
  {
    FreeCounterIsLeast(content, base, 0);
  }

  // ---------------------------------------------------------------------------------
  // buildContextAssignString

  /** `relative(cwd, resolve(filePath))` for each path, and the `i`-th `randomUUID()`. */
  datatype Environment = Environment(relative: string -> string, uuid: nat -> string)

  /** The lines of one entry in `src/.AchillesSkills/cskills/context-loader/context.mjs`:
    * the path assign, the content assign, and the content between delimiter lines. */
  function NamedBlock(relPath: string, content: string, token: string): seq<string> {
    var name := SafeBaseName(relPath);
    ["@" + name + " assign \"" + relPath + "\"", "@" + name + "Content assign", Begin(token)]
    + (if content != "" then [content] else []) + [End(token)]
  }

  /** The token for the `i`-th entry. */
  function EntryToken(content: string, env: Environment, i: nat): string {
    Token("context-" + env.uuid(i), FreeCounter(content, "context-" + env.uuid(i), 0))
  }

  /** The lines of the first `n` entries. */
  function NamedLines(m: OrderedMap<string>, env: Environment, n: nat): seq<string>
    requires m.Valid() && n <= |m.keys|
  {
    if n == 0 then []
    else
      var key := m.keys[n - 1];
      NamedLines(m, env, n - 1) + NamedBlock(Slashes(env.relative(key)), m.table[key], EntryToken(m.table[key], env, n - 1))
  }

  /** `buildContextAssignString(readFiles)` of the `cskills` copy. */
  function NamedAssignString(m: OrderedMap<string>, env: Environment): string
    requires m.Valid()
  {
    if m.Size() == 0 then "" else Join(NamedLines(m, env, |m.keys|), "\n")
  }

  /** Every block names the entry by a safe identifier and encloses its content between
    * two delimiter lines of the same token, neither of which occurs in the content. */
  lemma NamedBlockSafe(relPath: string, content: string, env: Environment, i: nat)
    ensures var b := NamedBlock(relPath, content, EntryToken(content, env, i));
      var t := EntryToken(content, env, i);
      && b[0] == "@" + SafeBaseName(relPath) + " assign \"" + relPath + "\""
      && b[2] == Begin(t) && b[|b| - 1] == End(t)
      && b[3..|b| - 1] == (if content != "" then [content] else [])
      && !Contains(content, Begin(t)) && !Contains(content, End(t))
      && IsIdentifier(SafeStem(relPath))
  {
    HereDocTokenIsLeast(content, "context-" + env.uuid(i));
    SafeBaseNameIsIdentifier(relPath);
  }

  /** The lines of one entry in `src/.AchillesSkills/context-loader/context.mjs`: the path
    * assign and the content between delimiter lines with a random token. */
  function PlainBlock(relPath: string, content: string, token: string): seq<string> {
    ["@" + relPath + " assign", Begin(token)] + (if content != "" then [content] else []) + [End(token)]
  }

  function PlainLines(m: OrderedMap<string>, env: Environment, n: nat): seq<string>
    requires m.Valid() && n <= |m.keys|
  {
    if n == 0 then []
    else
      var key := m.keys[n - 1];
      PlainLines(m, env, n - 1) + PlainBlock(Slashes(env.relative(key)), m.table[key], "context-" + env.uuid(n - 1))
  }

  /** `buildContextAssignString(readFiles)` of the plain copy. */
  function PlainAssignString(m: OrderedMap<string>, env: Environment): string
    requires m.Valid()
  {
    if m.Size() == 0 then "" else Join(PlainLines(m, env, |m.keys|), "\n")
  }

  /** The lines the loop pushes for one entry, with the token `buildHereDocToken` finds
    * from `base`. */
  method EntryBlock(relPath: string, content: string, base: string) returns (block: seq<string>)
    ensures block == NamedBlock(relPath, content, Token(base, FreeCounter(content, base, 0)))
  {
    var baseName := SafeBaseName(relPath);
    var token := HereDocToken(content, base);
    block := ["@" + baseName + " assign \"" + relPath + "\"", "@" + baseName + "Content assign", Begin(token)];
    if content != "" {
      block := block + [content];
    }
    block := block + [End(token)];
  }

  /** The loop over the entries of the `cskills` copy: one block per entry, in insertion
    * order. */
  method NamedLinesOf(m: OrderedMap<string>, env: Environment) returns (lines: seq<string>)
    requires m.Valid()
    ensures lines == NamedLines(m, env, |m.keys|)
  {
    lines := [];
    for i := 0 to |m.keys|
      invariant lines == NamedLines(m, env, i)
    {
      var key := m.keys[i];
      var block := EntryBlock(Slashes(env.relative(key)), m.table[key], "context-" + env.uuid(i));
      lines := lines + block;
    }
  }

  /** `buildContextAssignString(readFiles)` of the `cskills` copy. */
  method BuildNamedAssignString(m: OrderedMap<string>, env: Environment) returns (r: string)
    requires m.Valid()
    ensures r == NamedAssignString(m, env)
    ensures m.Size() == 0 <==> r == ""
  {
    if m.Size() == 0 {
      return "";
    }
    var lines := NamedLinesOf(m, env);
    r := Join(lines, "\n");
    JoinNonEmpty(lines, "\n");
  }

  /** The loop over the entries of the plain copy: one block per entry, in insertion
    * order. */
  method PlainLinesOf(m: OrderedMap<string>, env: Environment) returns (lines: seq<string>)
    requires m.Valid()
    ensures lines == PlainLines(m, env, |m.keys|)
  {
    lines := [];
    for i := 0 to |m.keys|
      invariant lines == PlainLines(m, env, i)
    {
      var key := m.keys[i];
      var content := m.table[key];
      var relPath := Slashes(env.relative(key));
      var token := "context-" + env.uuid(i);
      lines := lines + ["@" + relPath + " assign"];
      lines := lines + [Begin(token)];
      if content != "" {
        lines := lines + [content];
      }
      lines := lines + [End(token)];
    }
  }

  /** `buildContextAssignString(readFiles)` of the plain copy. */
  method BuildPlainAssignString(m: OrderedMap<string>, env: Environment) returns (r: string)
    requires m.Valid()
    ensures r == PlainAssignString(m, env)
    ensures m.Size() == 0 <==> r == ""
  {
    if m.Size() == 0 {
      return "";
    }
    var lines := PlainLinesOf(m, env);
    r := Join(lines, "\n");
    JoinNonEmpty(lines, "\n");
  }

  /** Lines whose last one is not empty join to a text that is not empty. */
  lemma {:induction false} JoinNonEmpty(lines: seq<string>, sep: string)
    requires lines != [] && lines[|lines| - 1] != ""
    ensures Join(lines, sep) != ""
    decreases |lines|
  {
    if |lines| > 1 {
      JoinNonEmpty(lines[1..], sep);
    }
  }
}
