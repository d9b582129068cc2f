/** `parseInput` of the two context-loader copies: the prompt is cut at its first
  * `options:` marker (after any `dependsOn:` tail has been stripped), and what follows the
  * marker is read as options, by the key-value option parser in
  * `src/.AchillesSkills/cskills/context-loader/src/parser.mjs` and as a JSON object in
  * `src/.AchillesSkills/context-loader/parser.mjs`. Either way the options are then
  * checked against the baseline by `applyDefaults`. */
module ContextParser {
  import opened Wrappers
  import opened Text
  import opened Keywords
  import opened Json
  import opened OptionsParser
  import opened ContextOptions

  /** `/\boptions\s*:\s*\/i` */
  const OptionsMarker := Marker("options", true, true)

  /** The prompt and, when an `options:` marker was found, the trimmed text after it. */
  datatype Split = Split(prompt: string, rest: Option<string>)

  /** The cut of a `dependsOn`-free text at its first `options:` marker. */
  function SplitAtOptions(raw: string): Split {
    match FindMarker(raw, OptionsMarker, 0)
    case None => Split(Trim(raw), None)
    case Some(i) => Split(Trim(raw[..i]), Some(Trim(raw[MarkerEnd(raw, OptionsMarker, i)..])))
  }

  /** The shared head of both `parseInput`s: a missing, non-string or empty input is an
    * empty prompt without options; otherwise the `dependsOn:` tail is stripped and the
    * rest cut at `options:`. */
  function SplitInput(promptText: Option<string>): Split {
    if promptText.None? || promptText.value == "" then Split("", None)
    else SplitAtOptions(StripDependsOn(promptText.value))
  }

  /** The prompt holds no `options:` marker; it holds no `dependsOn:` marker when the
    * text it was cut from held none; there are options exactly when the text has a
    * marker; both parts are trimmed. */
  lemma SplitAtOptionsFacts(raw: string)
    ensures var r := SplitAtOptions(raw);
      && NoMarker(r.prompt, OptionsMarker)
      && (NoMarker(raw, DependsOn) ==> NoMarker(r.prompt, DependsOn))
      && (r.rest.None? <==> NoMarker(raw, OptionsMarker))
      && IsTrimmed(r.prompt) && (r.rest.Some? ==> IsTrimmed(r.rest.value))
  {
    match FindMarker(raw, OptionsMarker, 0)
    case None =>
      NoMarkerInTrim(raw, OptionsMarker);
      if NoMarker(raw, DependsOn) {
        NoMarkerInTrim(raw, DependsOn);
      }
    case Some(i) =>
      NoMarkerBefore(raw, OptionsMarker, i);
      NoMarkerInTrim(raw[..i], OptionsMarker);
      if NoMarker(raw, DependsOn) {
        NoMarkerBefore(raw, DependsOn, i);
        NoMarkerInTrim(raw[..i], DependsOn);
      }
  }

  /** Whatever the input, the prompt carries neither marker and is trimmed. */
  lemma SplitInputPrompt(promptText: Option<string>)
    ensures var r := SplitInput(promptText);
      NoMarker(r.prompt, OptionsMarker) && NoMarker(r.prompt, DependsOn) && IsTrimmed(r.prompt)
  {
    if promptText.Some? && promptText.value != "" {
      SplitAtOptionsFacts(StripDependsOn(promptText.value));
    }
  }

  /** Splitting the prompt again gives it back, without options. */
  lemma SplitInputReparse(promptText: Option<string>)
    ensures var p := SplitInput(promptText).prompt; SplitInput(Some(p)) == Split(p, None)
  {
    var p := SplitInput(promptText).prompt;
    SplitInputPrompt(promptText);
    if p != "" {
      assert FindMarker(p, DependsOn, 0).None?;
      assert StripDependsOn(p) == p;
      assert FindMarker(p, OptionsMarker, 0).None?;
      TrimOfTrimmed(p);
    }
  }

  // ---------------------------------------------------------------------------------
  // src/.AchillesSkills/cskills/context-loader/src/parser.mjs

  /** `{ prompt, options, optionsRaw, parseError }`; the error is its message. */
  datatype ParsedInput = ParsedInput(
    prompt: string, options: LoaderOptions, optionsRaw: string, parseError: Option<string>)

  /** The object `parseKeyValueOptions` returns: a string per key, an array for a
    * repeatable key. */
  function OptionsAsJson(o: Options): Parsed {
    map k | k in o :: if o[k].Single? then JString(o[k].text) else JArray(JsonStrings(o[k].texts))
  }

  /** `parseInput(promptText)` */
  function ParseInput(promptText: Option<string>): ParsedInput {
    var split := SplitInput(promptText);
    match split.rest
    case None => ParsedInput(split.prompt, Defaults(), "", None)
    case Some(optionsRaw) =>
      match ParsedOptions(optionsRaw, Some(KnownOptions), {"include"})
      case Ok(parsed) => ParsedInput(split.prompt, Applied(OptionsAsJson(parsed)), optionsRaw, None)
      case Err(e) => ParsedInput(split.prompt, Defaults(), optionsRaw, Some(e))
  }

  /** What every caller can rely on: valid options, the baseline whenever the options
    * failed to parse (which only text after the marker can cause), and a trimmed prompt
    * free of both markers. */
  lemma ParseInputFacts(promptText: Option<string>)
    ensures var r := ParseInput(promptText);
      && ValidOptions(r.options)
      && (r.parseError.Some? ==> r.options == Defaults() && r.optionsRaw != "")
      && NoMarker(r.prompt, OptionsMarker) && NoMarker(r.prompt, DependsOn)
      && IsTrimmed(r.prompt) && IsTrimmed(r.optionsRaw)
  {
    var split := SplitInput(promptText);
    SplitInputPrompt(promptText);
    if promptText.Some? && promptText.value != "" {
      SplitAtOptionsFacts(StripDependsOn(promptText.value));
    }
    AppliedValid(map[]);
    if split.rest.Some? {
      var parsed := ParsedOptions(split.rest.value, Some(KnownOptions), {"include"});
      if parsed.Ok? {
        AppliedValid(OptionsAsJson(parsed.value));
      }
      TrimOfTrimmed(split.rest.value);
    }
  }

  /** An input without any options is the empty-options result for its trimmed text. */
  lemma ParseInputWithoutOptions(text: string)
    requires NoMarker(text, OptionsMarker) && NoMarker(text, DependsOn)
    ensures ParseInput(Some(text)) == ParsedInput(Trim(text), Defaults(), "", None)
  {
    if text != "" {
      assert FindMarker(text, DependsOn, 0).None?;
      assert FindMarker(text, OptionsMarker, 0).None?;
    }
  }

  /** Parsing the prompt again gives it back with the baseline options. */
  lemma ParseInputReparse(promptText: Option<string>)
    ensures var p := ParseInput(promptText).prompt;
      ParseInput(Some(p)) == ParsedInput(p, Defaults(), "", None)
  {
    SplitInputReparse(promptText);
  }

  // ---------------------------------------------------------------------------------
  // src/.AchillesSkills/context-loader/parser.mjs

  /** `{ prompt, options }` */
  datatype PromptAndOptions = PromptAndOptions(prompt: string, options: LoaderOptions)

  /** The object the text after the marker yields: `JSON.parse` of its first `{` to last
    * `}` span, or `{}` when there is no span or it does not parse. `parse` stands for
    * `JSON.parse` on a text that starts with `{` and ends with `}`, which yields an object
    * or throws (`None`). */
  function JsonOptions(jsonText: string, parse: string -> Option<Parsed>): Parsed {
    match BraceSpan(jsonText)
    case None => map[]
    case Some(span) => parse(span).GetOr(map[])
  }

  /** `parseInput(promptText)` */
  function ParseJsonInput(promptText: Option<string>, parse: string -> Option<Parsed>): PromptAndOptions {
    var split := SplitInput(promptText);
    match split.rest
    case None => PromptAndOptions(split.prompt, Defaults())
    case Some(jsonText) => PromptAndOptions(split.prompt, Applied(JsonOptions(jsonText, parse)))
  }

  /** Valid options, the baseline unless a `{`…`}` span parsed, and a trimmed prompt free
    * of both markers. */
  lemma ParseJsonInputFacts(promptText: Option<string>, parse: string -> Option<Parsed>)
    ensures var r := ParseJsonInput(promptText, parse);
      && ValidOptions(r.options)
      && NoMarker(r.prompt, OptionsMarker) && NoMarker(r.prompt, DependsOn) && IsTrimmed(r.prompt)
    ensures var rest := SplitInput(promptText).rest;
      (rest.None? || BraceSpan(rest.value).None? || parse(BraceSpan(rest.value).value).None?) ==>
        ParseJsonInput(promptText, parse).options == Defaults()
  {
    SplitInputPrompt(promptText);
    var rest := SplitInput(promptText).rest;
    if rest.Some? {
      AppliedValid(JsonOptions(rest.value, parse));
      if BraceSpan(rest.value).None? || parse(BraceSpan(rest.value).value).None? {
        AppliedNothing(map[]);
      }
    } else {
      AppliedValid(map[]);
    }
  }

  /** Both copies cut the prompt the same way. */
  lemma SamePrompt(promptText: Option<string>, parse: string -> Option<Parsed>)
    ensures ParseJsonInput(promptText, parse).prompt == ParseInput(promptText).prompt
  {
  }
}
