/** The deterministic parts of `src/.AchillesSkills/context-loader/prompts.mjs`: the
  * constraints section injected into the prompts, the choice between the initial and the
  * follow-up prompt, and the reading of the LLM's answer into `{done, files, reason}`.
  * The prompt templates themselves, the LLM and `JSON.parse` are parameters. */
module Prompts {
  import opened Wrappers
  import opened Text
  import opened Json
  import opened Seqs
  import opened ContextOptions

  // ---------------------------------------------------------------------------------
  // buildConstraintsSection

  /** `options.maxFiles`, which may also be absent from the object (`undefined`). */
  datatype MaxFiles = Undefined | Null | Count(n: real)

  /** The five fields `buildConstraintsSection` reads; `None` is a falsy value. */
  datatype Constraints = Constraints(
    filter: Option<string>,
    exclude: Option<string>,
    maxFiles: MaxFiles,
    includes: Option<seq<string>>,
    dir: Option<string>)

  /** The fields of a record built by `applyDefaults`, which always holds `maxFiles`. */
  function OfLoaderOptions(o: LoaderOptions): Constraints {
    Constraints(o.filter, o.exclude, if o.maxFiles.None? then Null else Count(o.maxFiles.value),
      o.includes, Some(o.dir))
  }

  /** The five kinds of constraint line. */
  datatype Rule = FilterRule | ExcludeRule | MaxFilesRule | IncludeRule | DirRule

  /** The fixed order in which the lines are pushed. */
  const Order: seq<Rule> := [FilterRule, ExcludeRule, MaxFilesRule, IncludeRule, DirRule]

  /** The condition under which each line is pushed. */
  predicate Active(o: Constraints, rule: Rule) {
    match rule
    case FilterRule => o.filter.Some? && o.filter.value != ""
    case ExcludeRule => o.exclude.Some? && o.exclude.value != ""
    case MaxFilesRule => !o.maxFiles.Null?
    case IncludeRule => o.includes.Some? && |o.includes.value| > 0
    case DirRule => o.dir.Some? && o.dir.value != "" && o.dir.value != "."
  }

  /** `${options.maxFiles}` */
  function MaxFilesText(m: MaxFiles, show: real -> string): string {
    match m
    case Undefined => "undefined"
    case Null => "null"
    case Count(n) => NumberText(n, show)
  }

  /** The line each rule pushes. */
  function Line(o: Constraints, rule: Rule, show: real -> string): string {
    match rule
    case FilterRule => "- ONLY select files whose name matches the pattern: " + o.filter.GetOr("")
    case ExcludeRule => "- Do NOT select files whose name matches the pattern: " + o.exclude.GetOr("")
    case MaxFilesRule => "- Maximum " + MaxFilesText(o.maxFiles, show) + " files can be read in total. Be selective."
    case IncludeRule =>
      "- The following files are already force-included and loaded. Do NOT request them again: "
      + Join(o.includes.GetOr([]), ", ")
    case DirRule => "- Only select files within the directory: " + o.dir.GetOr("")
  }

  /** `Active` for one options object, as a test on rules. */
  function Applies(o: Constraints): Rule -> bool {
    (rule: Rule) => Active(o, rule)
  }

  /** The rules that apply, in the fixed order. */
  function ActiveRules(o: Constraints): seq<Rule> {
    Filter(Order, Applies(o))
  }

  /** The lines of `rules`, in their order. */
  function RuleLines(o: Constraints, rules: seq<Rule>, show: real -> string): (r: seq<string>)
    ensures |r| == |rules|
    decreases |rules|
  {
    if rules == [] then []
    else RuleLines(o, rules[..|rules| - 1], show) + [Line(o, rules[|rules| - 1], show)]
  }

  /** The section for the lines: empty without lines, otherwise a heading and one line
    * each, between newlines. */
  function Section(lines: seq<string>): string {
    if lines == [] then "" else "\n## Active Constraints\n" + Join(lines, "\n") + "\n"
  }

  /** The line of `rule` when it applies. */
  function LineIf(o: Constraints, rule: Rule, show: real -> string): seq<string> {
    if Active(o, rule) then [Line(o, rule, show)] else []
  }

  /** One more rule of the fixed order adds its line exactly when it applies. */
  lemma OrderStep(o: Constraints, k: nat, show: real -> string)
    requires k < |Order|
    ensures RuleLines(o, Filter(Order[..k + 1], Applies(o)), show)
      == RuleLines(o, Filter(Order[..k], Applies(o)), show) + LineIf(o, Order[k], show)
  {
    assert Order[..k + 1][..k] == Order[..k];
    var f := Filter(Order[..k], Applies(o));
    if Active(o, Order[k]) {
      assert (f + [Order[k]])[..|f|] == f;
    } else {
      assert Filter(Order[..k + 1], Applies(o)) == f;
    }
  }

  /** The lines of the rules that apply are those of the fixed order, one rule at a time. */
  lemma ActiveRuleLines(o: Constraints, show: real -> string)
    ensures RuleLines(o, ActiveRules(o), show)
      == LineIf(o, FilterRule, show) + LineIf(o, ExcludeRule, show) + LineIf(o, MaxFilesRule, show)
         + LineIf(o, IncludeRule, show) + LineIf(o, DirRule, show)
  {
    var a := Applies(o);
    var l1 := RuleLines(o, Filter(Order[..1], a), show);
    var l2 := RuleLines(o, Filter(Order[..2], a), show);
    var l3 := RuleLines(o, Filter(Order[..3], a), show);
    var l4 := RuleLines(o, Filter(Order[..4], a), show);
    assert l1 == LineIf(o, FilterRule, show) by {
      assert Order[..0] == [];
      OrderStep(o, 0, show);
    }
    assert l2 == l1 + LineIf(o, ExcludeRule, show) by {
      OrderStep(o, 1, show);
    }
    assert l3 == l2 + LineIf(o, MaxFilesRule, show) by {
      OrderStep(o, 2, show);
    }
    assert l4 == l3 + LineIf(o, IncludeRule, show) by {
      OrderStep(o, 3, show);
    }
    assert RuleLines(o, ActiveRules(o), show) == l4 + LineIf(o, DirRule, show) by {
      OrderStep(o, 4, show);
      assert Order[..5] == Order;
    }
  }

  /** No line is pushed exactly when no rule applies. */
  lemma NoActiveRules(o: Constraints)
    ensures ActiveRules(o) == [] <==> forall rule: Rule :: !Active(o, rule)
  {
    FilterMembers(Order, Applies(o));
    if ActiveRules(o) != [] {
      assert ActiveRules(o)[0] in ActiveRules(o);
    } else {
      forall rule: Rule ensures !Active(o, rule) {
        assert rule !in ActiveRules(o);
        assert rule == Order[0] || rule == Order[1] || rule == Order[2] || rule == Order[3] || rule == Order[4];
      }
    }
  }

  /** `if (<rule applies>) lines.push(<its line>)` */
  method PushIf(lines: seq<string>, o: Constraints, rule: Rule, show: real -> string) returns (r: seq<string>)
    ensures r == lines + LineIf(o, rule, show)
  {
    r := lines;
    if Active(o, rule) {
      r := r + [Line(o, rule, show)];
    }
  }

  /** `buildConstraintsSection(options)`: the lines of the rules that apply, in the fixed
    * order filter, exclude, maxFiles, include, dir; empty exactly when none applies. */
  method BuildConstraintsSection(o: Constraints, show: real -> string) returns (r: string)
    ensures r == Section(RuleLines(o, ActiveRules(o), show))
    ensures r == "" <==> forall rule: Rule :: !Active(o, rule)
  {
    var lines: seq<string> := [];
    lines := PushIf(lines, o, FilterRule, show);
    lines := PushIf(lines, o, ExcludeRule, show);
    lines := PushIf(lines, o, MaxFilesRule, show);
    lines := PushIf(lines, o, IncludeRule, show);
    lines := PushIf(lines, o, DirRule, show);
    assert [] + LineIf(o, FilterRule, show) == LineIf(o, FilterRule, show);
    ActiveRuleLines(o, show);
    NoActiveRules(o);
    if |lines| == 0 {
      return "";
    }
    r := "\n## Active Constraints\n" + Join(lines, "\n") + "\n";
  }

  /** The baseline options ask for no constraint. */
  lemma DefaultsHaveNoConstraints(show: real -> string)
    ensures Section(RuleLines(OfLoaderOptions(Defaults()), ActiveRules(OfLoaderOptions(Defaults())), show)) == ""
  {
    NoActiveRules(OfLoaderOptions(Defaults()));
  }

  // ---------------------------------------------------------------------------------
  // normalizeResponse and parseResponse

  /** `{ done, files, reason }` */
  datatype Response = Response(done: bool, files: seq<string>, reason: string)

  /** What the loop stops with when the answer cannot be read. */
  const CannotParse := Response(true, [], "Could not parse LLM response.")

  /** `normalizeResponse(obj)`; a property the object lacks is `undefined`. */
  function NormalizeResponse(obj: map<string, Json>): (r: Response)
    ensures forall i :: 0 <= i < |r.files| ==> !AllSpace(r.files[i])
  {
    Response(
      "done" in obj && Truthy(obj["done"]),
      if "files" in obj && obj["files"].JArray? then NonBlankStrings(obj["files"].items) else [],
      if "reason" in obj && obj["reason"].JString? then obj["reason"].s else "")
  }

  /** A response written back as the object it was read from. */
  function ResponseObject(r: Response): map<string, Json> {
    map["done" := JBool(r.done), "files" := JArray(JsonStrings(r.files)), "reason" := JString(r.reason)]
  }

  /** Non-blank strings survive the filter unchanged. */
  lemma {:induction false} NonBlankStringsKeep(texts: seq<string>)
    requires forall i :: 0 <= i < |texts| ==> !AllSpace(texts[i])
    ensures NonBlankStrings(JsonStrings(texts)) == texts
  {
    if texts != [] {
      var xs := JsonStrings(texts);
      assert xs[1..] == JsonStrings(texts[1..]);
      NonBlankStringsKeep(texts[1..]);
      TrimEmptyIff(texts[0]);
    }
  }

  /** A normalised response reads back as itself: normalising is idempotent. */
  lemma NormalizeResponseObject(r: Response)
    requires forall i :: 0 <= i < |r.files| ==> !AllSpace(r.files[i])
    ensures NormalizeResponse(ResponseObject(r)) == r
  {
    NonBlankStringsKeep(r.files);
  }

  /** `parseResponse(response)`: an object (an array included) is normalised; a string is
    * cut at its first `{` and last `}` and parsed; anything else, or a string that does not
    * yield an object, gives `CannotParse`. `parse` stands for `JSON.parse` on a text that
    * starts with `{` and ends with `}`, which yields an object or throws (`None`); a `null`
    * response also stands for `undefined`. */
  function ParseResponse(response: Json, parse: string -> Option<map<string, Json>>): Response {
    match response
    case JObject(fields) => NormalizeResponse(fields)
    case JArray(_) => NormalizeResponse(map[])
    case JString(s) =>
      (match BraceSpan(s)
       case None => CannotParse
       case Some(span) =>
         (match parse(span)
          case None => CannotParse
          case Some(fields) => NormalizeResponse(fields)))
    case _ => CannotParse
  }

  /** Every answer is read into a response whose files are non-blank; an answer that
    * neither is an object nor holds one gives `CannotParse`. */
  lemma ParseResponseFacts(response: Json, parse: string -> Option<map<string, Json>>)
    ensures var r := ParseResponse(response, parse);
      forall i :: 0 <= i < |r.files| ==> !AllSpace(r.files[i])
    ensures (response.JNull? || response.JBool? || response.JNum?) ==> ParseResponse(response, parse) == CannotParse
    ensures response.JString? && BraceSpan(response.s).None? ==> ParseResponse(response, parse) == CannotParse
    ensures response.JString? && BraceSpan(response.s).Some? && parse(BraceSpan(response.s).value).None? ==>
      ParseResponse(response, parse) == CannotParse
  {
  }

  /** A string answer reads as the object its braces hold: the fallback through the text
    * and the structured answer agree. */
  lemma ParseResponseOfText(s: string, fields: map<string, Json>, parse: string -> Option<map<string, Json>>)
    requires BraceSpan(s).Some? && parse(BraceSpan(s).value) == Some(fields)
    ensures ParseResponse(JString(s), parse) == ParseResponse(JObject(fields), parse)
  {
  }

  /** An answer already in normalised form reads back unchanged. */
  lemma ParseResponseRoundTrip(r: Response, parse: string -> Option<map<string, Json>>)
    requires forall i :: 0 <= i < |r.files| ==> !AllSpace(r.files[i])
    ensures ParseResponse(JObject(ResponseObject(r)), parse) == r
  {
    NormalizeResponseObject(r);
  }

  // ---------------------------------------------------------------------------------
  // askLLMForFiles

  /** `buildInitialPrompt` or `buildFollowUpPrompt`. */
  datatype PromptKind = InitialPrompt | FollowUpPrompt

  /** The options every request passes: `{ mode: 'fast', responseShape: 'json' }`. */
  datatype RequestOptions = RequestOptions(mode: string, responseShape: string)

  const AskOptions := RequestOptions("fast", "json")

  /** `askLLMForFiles(llmAgent, …, currentContext, …)`: the follow-up prompt when the
    * current context is truthy, the initial prompt otherwise, sent with `AskOptions`, and
    * the answer read by `parseResponse`. `llm` stands for `executePrompt` on the chosen
    * template. */
  function AskLLMForFiles(currentContext: Json, llm: (PromptKind, RequestOptions) -> Json,
                          parse: string -> Option<map<string, Json>>): Response
  {
    var kind := if Truthy(currentContext) then FollowUpPrompt else InitialPrompt;
    ParseResponse(llm(kind, AskOptions), parse)
  }

  /** The answer to the template the current context selects (the follow-up prompt exactly
    * when the context is truthy): its files are non-blank; an answer already in normalised
    * form is returned as it is; an answer that is neither an object nor a string gives
    * `CannotParse`. */
  lemma AskLLMForFilesAnswer(currentContext: Json, llm: (PromptKind, RequestOptions) -> Json,
                             parse: string -> Option<map<string, Json>>, kind: PromptKind)
    requires kind == if Truthy(currentContext) then FollowUpPrompt else InitialPrompt
    ensures var r := AskLLMForFiles(currentContext, llm, parse);
      forall i :: 0 <= i < |r.files| ==> !AllSpace(r.files[i])
    ensures forall r: Response ::
      ((forall i :: 0 <= i < |r.files| ==> !AllSpace(r.files[i])) && llm(kind, AskOptions) == JObject(ResponseObject(r)))
      ==> AskLLMForFiles(currentContext, llm, parse) == r
    ensures var reply := llm(kind, AskOptions);
      (reply.JNull? || reply.JBool? || reply.JNum?) ==> AskLLMForFiles(currentContext, llm, parse) == CannotParse
  {
    var reply := llm(kind, AskOptions);
    ParseResponseFacts(reply, parse);
    forall r: Response | (forall i :: 0 <= i < |r.files| ==> !AllSpace(r.files[i]))
      && reply == JObject(ResponseObject(r))
      ensures AskLLMForFiles(currentContext, llm, parse) == r
    {
      ParseResponseRoundTrip(r, parse);
    }
  }
}
