/** The options record of the context loader, shared by both copies of its `parser.mjs`
  * (`src/.AchillesSkills/cskills/context-loader/src/parser.mjs` and
  * `src/.AchillesSkills/context-loader/parser.mjs`, whose `buildDefaults` and
  * `applyDefaults` are the same code): the baseline record and the rules that take a
  * parsed value over the baseline only when it is usable. */
module ContextOptions {
  import opened Wrappers
  import opened Text
  import opened Json
  import opened Seqs

  /** `{dir, filter, maxDepth, exclude, maxFiles, maxFileSize, include}`; `None` is `null`.
    * (`include` is a Dafny keyword, so the field is `includes`.) */
  datatype LoaderOptions = LoaderOptions(
    dir: string,
    filter: Option<string>,
    maxDepth: real,
    exclude: Option<string>,
    maxFiles: Option<real>,
    maxFileSize: Option<real>,
    includes: Option<seq<string>>)

  /** `KNOWN_OPTIONS` */
  const KnownOptions: set<string> :=
    {"dir", "filter", "maxDepth", "exclude", "maxFiles", "maxFileSize", "include"}

  /** `buildDefaults()` */
  function Defaults(): (d: LoaderOptions)
    ensures d.dir == "." && d.maxDepth == 2.0
    ensures d.filter.None? && d.exclude.None? && d.maxFiles.None? && d.maxFileSize.None?
    ensures d.includes.None?
  {
    LoaderOptions(".", None, 2.0, None, None, None, None)
  }

  /** The parsed options object; a key it lacks reads as `undefined`. */
  type Parsed = map<string, Json>

  /** `typeof parsed[key] === 'string' && parsed[key].trim()`, giving the trimmed text. */
  function TextOption(parsed: Parsed, key: string): (r: Option<string>)
    ensures r.Some? ==> IsTrimmed(r.value) && r.value != ""
    ensures r.Some? <==> key in parsed && parsed[key].JString? && !AllSpace(parsed[key].s)
  {
    TrimEmptyIff(if key in parsed && parsed[key].JString? then parsed[key].s else "");
    if key in parsed && parsed[key].JString? && Trim(parsed[key].s) != "" then
      Some(Trim(parsed[key].s))
    else
      None
  }

  /** `parsed[key] !== undefined` and `Number(parsed[key])` finite and positive. */
  function PositiveOption(parsed: Parsed, key: string): (r: Option<real>)
    ensures r.Some? ==> r.value > 0.0
    ensures r.Some? <==> key in parsed && ToNumber(parsed[key]).Some? && ToNumber(parsed[key]).value > 0.0
  {
    if key in parsed then
      var n := ToNumber(parsed[key]);
      if n.Some? && n.value > 0.0 then n else None
    else None
  }

  /** The strings of `xs` that are not blank, in order and untrimmed:
    * `xs.filter(s => typeof s === 'string' && s.trim())`. */
  function NonBlankStrings(xs: seq<Json>): (r: seq<string>)
    ensures forall i :: 0 <= i < |r| ==> !AllSpace(r[i])
  {
    if xs == [] then []
    else
      var rest := NonBlankStrings(xs[1..]);
      if xs[0].JString? && Trim(xs[0].s) != "" then
        TrimEmptyIff(xs[0].s);
        [xs[0].s] + rest
      else rest
  }

  /** A string is kept exactly when it is one of the array's non-blank strings. */
  lemma {:induction false} NonBlankStringsMembers(xs: seq<Json>)
    ensures forall s :: s in NonBlankStrings(xs) <==> JString(s) in xs && !AllSpace(s)
  {
    if xs != [] {
      NonBlankStringsMembers(xs[1..]);
      assert xs == [xs[0]] + xs[1..];
      TrimEmptyIff(if xs[0].JString? then xs[0].s else "");
    }
  }

  predicate NonEmpty(s: string) { s != "" }

  /** `xs.map(s => s.trim())` */
  function TrimEach(xs: seq<string>): (r: seq<string>)
    ensures |r| == |xs| && forall i :: 0 <= i < |r| ==> r[i] == Trim(xs[i])
  {
    if xs == [] then [] else [Trim(xs[0])] + TrimEach(xs[1..])
  }

  lemma {:induction false} TrimEachTrimmed(xs: seq<string>)
    requires forall i :: 0 <= i < |xs| ==> IsTrimmed(xs[i])
    ensures TrimEach(xs) == xs
  {
    if xs != [] {
      TrimOfTrimmed(xs[0]);
      TrimEachTrimmed(xs[1..]);
      assert xs == [xs[0]] + xs[1..];
    }
  }

  /** `s.split(',').map(s => s.trim()).filter(Boolean)` */
  function CommaList(s: string): (r: seq<string>)
  {
    Filter(TrimEach(Split(s, ',')), NonEmpty)
  }

  /** Every entry of a comma list is trimmed, non-empty and free of commas. */
  lemma CommaListEntries(s: string)
    ensures forall x :: x in CommaList(s) ==> IsTrimmed(x) && x != "" && ',' !in x
  {
    var pieces := Split(s, ',');
    FilterMembers(TrimEach(pieces), NonEmpty);
    forall x | x in CommaList(s) ensures ',' !in x {
      var i :| 0 <= i < |pieces| && x == Trim(pieces[i]);
      TrimChars(pieces[i]);
    }
  }

  /** Entries joined by commas, each trimmed, non-empty and comma-free, come back. */
  lemma CommaListOfJoin(entries: seq<string>)
    requires entries != []
    requires forall i :: 0 <= i < |entries| ==> IsTrimmed(entries[i]) && entries[i] != "" && ',' !in entries[i]
    ensures CommaList(Join(entries, ",")) == entries
  {
    SplitJoin(entries, ',');
    TrimEachTrimmed(entries);
    FilterKeepsAll(entries, NonEmpty);
  }

  /** The `include` rule on a present value: a non-empty filtered array, or the comma
    * list of a non-blank string. */
  function IncludeFrom(v: Json): Option<seq<string>> {
    match v
    case JArray(xs) =>
      var kept := NonBlankStrings(xs);
      if |kept| > 0 then Some(kept) else None
    case JString(s) => if Trim(s) != "" then Some(CommaList(s)) else None
    case _ => None
  }

  function IncludeOption(parsed: Parsed): Option<seq<string>> {
    if "include" in parsed then IncludeFrom(parsed["include"]) else None
  }

  /** Every included entry is non-blank; from an array it is one of the array's strings,
    * from a string it is trimmed and comma-free. */
  lemma IncludeOptionEntries(parsed: Parsed)
    ensures var r := IncludeOption(parsed);
      r.Some? ==> forall x :: x in r.value ==> !AllSpace(x)
    ensures var r := IncludeOption(parsed);
      r.Some? && parsed["include"].JArray? ==> forall x :: x in r.value ==> JString(x) in parsed["include"].items
    ensures var r := IncludeOption(parsed);
      r.Some? && parsed["include"].JString? ==> forall x :: x in r.value ==> IsTrimmed(x) && ',' !in x
  {
    if "include" in parsed {
      match parsed["include"]
      case JArray(xs) => NonBlankStringsMembers(xs);
      case JString(s) =>
        CommaListEntries(s);
        forall x | x in CommaList(s) ensures !AllSpace(x) {
          TrimOfTrimmed(x);
          TrimEmptyIff(x);
        }
      case _ =>
    }
  }

  /** What `applyDefaults(parsed)` returns: each field of the baseline replaced by the
    * parsed value when that value is usable. */
  function Applied(parsed: Parsed): LoaderOptions {
    LoaderOptions(
      TextOption(parsed, "dir").GetOr("."),
      TextOption(parsed, "filter"),
      PositiveOption(parsed, "maxDepth").GetOr(2.0),
      TextOption(parsed, "exclude"),
      PositiveOption(parsed, "maxFiles"),
      PositiveOption(parsed, "maxFileSize"),
      IncludeOption(parsed))
  }

  /** The options every caller can rely on: a non-blank trimmed directory, positive
    * numbers, non-blank texts and include entries. */
  predicate ValidOptions(d: LoaderOptions) {
    && IsTrimmed(d.dir) && d.dir != ""
    && d.maxDepth > 0.0
    && (d.filter.Some? ==> IsTrimmed(d.filter.value) && d.filter.value != "")
    && (d.exclude.Some? ==> IsTrimmed(d.exclude.value) && d.exclude.value != "")
    && (d.maxFiles.Some? ==> d.maxFiles.value > 0.0)
    && (d.maxFileSize.Some? ==> d.maxFileSize.value > 0.0)
    && (d.includes.Some? ==> forall x :: x in d.includes.value ==> !AllSpace(x))
  }

  /** The baseline is valid, and so is anything `applyDefaults` returns. */
  lemma AppliedValid(parsed: Parsed)
    ensures ValidOptions(Defaults())
    ensures ValidOptions(Applied(parsed))
  {
    IncludeOptionEntries(parsed);
    assert IsTrimmed(".") && !IsSpace('.');
  }

  /** An object without any known key leaves the baseline as it is. */
  lemma AppliedNothing(parsed: Parsed)
    requires forall k :: k in KnownOptions ==> k !in parsed
    ensures Applied(parsed) == Defaults()
  {
    assert "dir" in KnownOptions && "filter" in KnownOptions && "maxDepth" in KnownOptions;
    assert "exclude" in KnownOptions && "maxFiles" in KnownOptions;
    assert "maxFileSize" in KnownOptions && "include" in KnownOptions;
  }

  /** `applyDefaults(parsed)`: starts from `buildDefaults()` and overwrites one field at a
    * time. */
  method ApplyDefaults(parsed: Parsed) returns (d: LoaderOptions)
    ensures d == Applied(parsed)
  {
    d := Defaults();
    var dir := TextOption(parsed, "dir");
    if dir.Some? {
      d := d.(dir := dir.value);
    }
    var filter := TextOption(parsed, "filter");
    if filter.Some? {
      d := d.(filter := filter);
    }
    var maxDepth := PositiveOption(parsed, "maxDepth");
    if maxDepth.Some? {
      d := d.(maxDepth := maxDepth.value);
    }
    var exclude := TextOption(parsed, "exclude");
    if exclude.Some? {
      d := d.(exclude := exclude);
    }
    var maxFiles := PositiveOption(parsed, "maxFiles");
    if maxFiles.Some? {
      d := d.(maxFiles := maxFiles);
    }
    var maxFileSize := PositiveOption(parsed, "maxFileSize");
    if maxFileSize.Some? {
      d := d.(maxFileSize := maxFileSize);
    }
    if "include" in parsed {
      var includes := IncludeFrom(parsed["include"]);
      if includes.Some? {
        d := d.(includes := includes);
      }
    }
  }
}
