/** `resolveArguments` of `src/ArgumentResolver.mjs`: how a skill's prompt becomes one
  * argument per schema slot. An array prompt is sliced; a text prompt goes through the
  * regular expressions, the single-slot rule, the comma and whitespace heuristics, and
  * finally the LLM. The regular expressions and the LLM are parameters; only the length of
  * the schema matters. */
module Arguments {
  import opened Wrappers
  import opened Text
  import opened Seqs
  import opened ContextOptions

  /** The prompt: an array (each element `null`/`undefined` as `None`, otherwise its
    * `String` form), or a single value (`None` for `null`/`undefined`, otherwise its
    * `String` form). */
  datatype Prompt = Parts(values: seq<Option<string>>) | Scalar(value: Option<string>)

  /** `textInput.match(pattern)` as the list of its captures (`match.slice(1)`), `None`
    * when it does not match. */
  type Pattern = string -> Option<seq<string>>

  /** `value === null || value === undefined ? '' : String(value)` for every element. */
  function ArrayParts(values: seq<Option<string>>): (r: seq<string>)
    ensures |r| == |values|
    ensures forall i :: 0 <= i < |r| ==> r[i] == values[i].GetOr("")
  {
    if values == [] then [] else [values[0].GetOr("")] + ArrayParts(values[1..])
  }

  /** `String(prompt ?? '')`: an array is written as its parts joined by commas. */
  function PromptText(p: Prompt): string {
    match p
    case Parts(values) => Join(ArrayParts(values), ",")
    case Scalar(value) => value.GetOr("")
  }

  // ---------------------------------------------------------------------------------
  // Array prompts

  /** The arguments of an array with at least as many parts as the schema has slots: one
    * joined string for one slot; the first `slots - 1` parts and the rest joined when there
    * are more parts; the parts themselves when the counts agree. With no slots,
    * `slice(0, -1)` and `slice(-1)` split off the last part, which gives the parts back. */
  function ArrayArguments(parts: seq<string>, slots: nat): seq<string>
    requires 0 < |parts| && slots <= |parts|
  {
    if slots == 1 then [Join(parts, " ")]
    else if |parts| > slots then
      if slots == 0 then parts[..|parts| - 1] + [Join(parts[|parts| - 1..], " ")]
      else parts[..slots - 1] + [Join(parts[slots - 1..], " ")]
    else parts[..slots]
  }

  /** Joining the last parts first changes nothing once everything is joined. */
  lemma {:induction false} JoinJoined(head: seq<string>, tail: seq<string>, sep: string)
    requires |tail| >= 1
    ensures Join(head + [Join(tail, sep)], sep) == Join(head + tail, sep)
    decreases |head|
  {
    if head == [] {
      assert head + [Join(tail, sep)] == [Join(tail, sep)];
      assert head + tail == tail;
    } else {
      JoinJoined(head[1..], tail, sep);
      assert (head + [Join(tail, sep)])[1..] == head[1..] + [Join(tail, sep)];
      assert (head + tail)[1..] == head[1..] + tail;
    }
  }

  /** An array prompt loses nothing: there is one argument per slot (the parts themselves
    * without a schema), and the arguments joined by spaces are the parts joined by spaces. */
  lemma ArrayArgumentsJoin(parts: seq<string>, slots: nat)
    requires 0 < |parts| && slots <= |parts|
    ensures var r := ArrayArguments(parts, slots);
      |r| == (if slots == 0 then |parts| else slots) && Join(r, " ") == Join(parts, " ")
  {
    if slots != 1 && |parts| > slots {
      var k := if slots == 0 then |parts| - 1 else slots - 1;
      JoinJoined(parts[..k], parts[k..], " ");
      assert parts[..k] + parts[k..] == parts;
    } else if slots != 1 {
      assert parts[..slots] == parts;
    }
  }

  // ---------------------------------------------------------------------------------
  // Text prompts

  /** The captures of a match with at least one per slot. */
  predicate Hit(pattern: Pattern, text: string, slots: nat) {
    pattern(text).Some? && |pattern(text).value| >= slots
  }

  /** The captures of the first pattern that hits. */
  function FirstCapture(text: string, patterns: seq<Pattern>, slots: nat): Option<seq<string>>
    decreases |patterns|
  {
    if patterns == [] then None
    else if Hit(patterns[0], text, slots) then patterns[0](text)
    else FirstCapture(text, patterns[1..], slots)
  }

  /** The captures come from the first pattern that hits, and there are none exactly when
    * no pattern hits. */
  lemma {:induction false} FirstCaptureIsFirst(text: string, patterns: seq<Pattern>, slots: nat)
    ensures var r := FirstCapture(text, patterns, slots);
      r.None? <==> forall i :: 0 <= i < |patterns| ==> !Hit(patterns[i], text, slots)
    ensures var r := FirstCapture(text, patterns, slots);
      r.Some? ==> exists i :: (0 <= i < |patterns| && Hit(patterns[i], text, slots)
        && r == patterns[i](text) && forall j :: 0 <= j < i ==> !Hit(patterns[j], text, slots))
    decreases |patterns|
  {
    if patterns != [] && !Hit(patterns[0], text, slots) {
      FirstCaptureIsFirst(text, patterns[1..], slots);
      var r := FirstCapture(text, patterns, slots);
      if r.Some? {
        var i :| 0 <= i < |patterns[1..]| && Hit(patterns[1..][i], text, slots)
          && r == patterns[1..][i](text) && forall j :: 0 <= j < i ==> !Hit(patterns[1..][j], text, slots);
        assert forall j :: 0 <= j < i + 1 ==> !Hit(patterns[j], text, slots) by {
          forall j | 0 <= j < i + 1 ensures !Hit(patterns[j], text, slots) {
            if j > 0 { assert patterns[j] == patterns[1..][j - 1]; }
          }
        }
      } else {
        forall i | 0 <= i < |patterns| ensures !Hit(patterns[i], text, slots) {
          if i > 0 { assert patterns[i] == patterns[1..][i - 1]; }
        }
      }
    }
  }

  /** `!Number.isNaN(Number.parseFloat(p))` for a trimmed `p`: after an optional sign, the
    * text starts with a digit, with `.` and a digit, or with `Infinity`. */
  predicate ParsesAsFloat(p: string) {
    var u := if p != [] && (p[0] == '+' || p[0] == '-') then p[1..] else p;
    (|u| >= 1 && IsDigit(u[0]))
    || (|u| >= 2 && u[0] == '.' && IsDigit(u[1]))
    || StartsWith(u, "Infinity")
  }

  predicate AllNumeric(parts: seq<string>) {
    forall i :: 0 <= i < |parts| ==> ParsesAsFloat(parts[i])
  }

  /** `s.split(/\s/)`: the pieces between single whitespace characters. */
  function SpaceSplit(s: string): (r: seq<string>)
    ensures |r| >= 1
    ensures forall i, j :: 0 <= i < |r| && 0 <= j < |r[i]| ==> !IsSpace(r[i][j])
    decreases |s|
  {
    if |s| == 0 then [""]
    else if IsSpace(s[0]) then [""] + SpaceSplit(s[1..])
    else
      var t := SpaceSplit(s[1..]);
      [[s[0]] + t[0]] + t[1..]
  }

  /** `text.split(/\s+/).filter(Boolean)`: the runs of non-whitespace characters (splitting
    * at every whitespace character and dropping the empty pieces gives the same runs). */
  function Words(text: string): seq<string> {
    Filter(SpaceSplit(text), NonEmpty)
  }

  /** Every word is non-empty and holds no whitespace. */
  lemma WordsEntries(text: string)
    ensures forall w :: w in Words(text) ==> w != "" && forall j :: 0 <= j < |w| ==> !IsSpace(w[j])
  {
    FilterMembers(SpaceSplit(text), NonEmpty);
  }

  /** What a heuristic returns for a list of at least two parts: for two slots and more
    * than two parts, the first part and the rest joined by spaces; otherwise the first
    * `slots` parts (all of them if there are fewer). */
  function Pick(parts: seq<string>, slots: nat): seq<string>
    requires |parts| >= 2
  {
    if slots == 2 && |parts| > 2 then [parts[0], Join(parts[1..], " ")]
    else parts[..if slots < |parts| then slots else |parts|]
  }

  /** For two slots nothing is lost; otherwise the arguments are the first parts. */
  lemma PickFacts(parts: seq<string>, slots: nat)
    requires |parts| >= 2
    ensures var r := Pick(parts, slots);
      && |r| == (if slots == 2 then 2 else if slots < |parts| then slots else |parts|)
      && (slots == 2 ==> Join(r, " ") == Join(parts, " "))
      && (slots != 2 ==> r == parts[..|r|])
  {
    if slots == 2 {
      if |parts| > 2 {
        JoinCons(parts[0], parts[1..], " ", Join(parts[1..], " "));
        assert [parts[0]] + parts[1..] == parts;
        assert Join([parts[0], Join(parts[1..], " ")], " ") == parts[0] + " " + Join(parts[1..], " ");
      } else {
        assert parts[..2] == parts;
      }
    }
  }

  /** The text branches, from the trimmed text on: regular expressions first, the whole
    * text for at most one slot, then the comma heuristic (more than one non-empty part,
    * all numeric or at least one per slot), then the whitespace heuristic (at least one
    * word per slot), then the LLM's array (`llm`, `None` when it gave none), then the
    * prompt's own text. */
  function FromText(text: string, p: Prompt, slots: nat, patterns: seq<Pattern>, llm: Option<seq<string>>): seq<string>
  {
    if text == "" then []
    else
      match FirstCapture(text, patterns, slots)
      case Some(captures) => TrimEach(captures)
      case None =>
        if slots <= 1 then [text]
        else
          var commaParts := CommaList(text);
          if |commaParts| > 1 && (AllNumeric(commaParts) || |commaParts| >= slots) then Pick(commaParts, slots)
          else
            var words := Words(text);
            if |words| >= slots then Pick(words, slots)
            else if llm.Some? then llm.value
            else [PromptText(p)]
  }

  /** `resolveArguments(agent, prompt, instruction, schema, regexPatterns)` with a schema of
    * `slots` entries and `llm` for what `extractArgumentsWithLLM` returns. */
  function ResolveArguments(p: Prompt, slots: nat, patterns: seq<Pattern>, llm: Option<seq<string>>): seq<string> {
    if p.Parts? && |p.values| == 0 then []
    else if p.Parts? && |p.values| >= slots then ArrayArguments(ArrayParts(p.values), slots)
    else FromText(Trim(PromptText(p)), p, slots, patterns, llm)
  }

  /** An empty array and a blank text give no arguments. */
  lemma NothingToResolve(p: Prompt, slots: nat, patterns: seq<Pattern>, llm: Option<seq<string>>)
    requires (p.Parts? && p.values == []) || (p.Scalar? && AllSpace(p.value.GetOr("")))
    ensures ResolveArguments(p, slots, patterns, llm) == []
  {
    if p.Scalar? {
      TrimEmptyIff(p.value.GetOr(""));
    }
  }

  /** The first pattern with a capture per slot decides, and its captures are trimmed. */
  lemma RegexWins(s: string, slots: nat, patterns: seq<Pattern>, llm: Option<seq<string>>, i: nat)
    requires Trim(s) != "" && i < |patterns| && Hit(patterns[i], Trim(s), slots)
    requires forall j :: 0 <= j < i ==> !Hit(patterns[j], Trim(s), slots)
    ensures var r := ResolveArguments(Scalar(Some(s)), slots, patterns, llm);
      var c := patterns[i](Trim(s)).value;
      |r| == |c| && forall k :: 0 <= k < |r| ==> r[k] == Trim(c[k])
  {
    var t := Trim(s);
    FirstCaptureIsFirst(t, patterns, slots);
    var r := FirstCapture(t, patterns, slots);
    var i' :| 0 <= i' < |patterns| && Hit(patterns[i'], t, slots)
      && r == patterns[i'](t) && forall j :: 0 <= j < i' ==> !Hit(patterns[j], t, slots);
    assert i' == i;
  }

  /** A one-slot schema keeps the trimmed text whole when no pattern hits. */
  lemma SingleSlotKeepsText(s: string, slots: nat, patterns: seq<Pattern>, llm: Option<seq<string>>)
    requires slots <= 1 && Trim(s) != ""
    requires forall i :: 0 <= i < |patterns| ==> !Hit(patterns[i], Trim(s), slots)
    ensures ResolveArguments(Scalar(Some(s)), slots, patterns, llm) == [Trim(s)]
  {
    FirstCaptureIsFirst(Trim(s), patterns, slots);
  }

  /** Once the comma heuristic applies, the arguments are its parts: trimmed, non-empty and
    * comma-free, all of them joined back for two slots, and the first ones otherwise. */
  lemma CommaHeuristic(s: string, slots: nat, patterns: seq<Pattern>, llm: Option<seq<string>>)
    requires slots >= 2 && Trim(s) != ""
    requires forall i :: 0 <= i < |patterns| ==> !Hit(patterns[i], Trim(s), slots)
    requires var c := CommaList(Trim(s)); |c| > 1 && (AllNumeric(c) || |c| >= slots)
    ensures var r := ResolveArguments(Scalar(Some(s)), slots, patterns, llm);
      var c := CommaList(Trim(s));
      && r == Pick(c, slots)
      && (slots == 2 ==> |r| == 2 && Join(r, " ") == Join(c, " "))
      && (slots != 2 ==> r == c[..|r|])
  {
    FirstCaptureIsFirst(Trim(s), patterns, slots);
    PickFacts(CommaList(Trim(s)), slots);
  }

  /** Otherwise, with a word per slot, the arguments are whitespace-free words. */
  lemma WordHeuristic(s: string, slots: nat, patterns: seq<Pattern>, llm: Option<seq<string>>)
    requires slots >= 2 && Trim(s) != ""
    requires forall i :: 0 <= i < |patterns| ==> !Hit(patterns[i], Trim(s), slots)
    requires var c := CommaList(Trim(s)); !(|c| > 1 && (AllNumeric(c) || |c| >= slots))
    requires |Words(Trim(s))| >= slots
    ensures var r := ResolveArguments(Scalar(Some(s)), slots, patterns, llm);
      var w := Words(Trim(s));
      && |r| == slots
      && (slots == 2 ==> Join(r, " ") == Join(w, " "))
      && (slots != 2 ==> r == w[..slots])
  {
    FirstCaptureIsFirst(Trim(s), patterns, slots);
    PickFacts(Words(Trim(s)), slots);
  }

  /** When nothing else applies, the LLM's array is used, or else the prompt's own text. */
  lemma LlmFallback(s: string, slots: nat, patterns: seq<Pattern>, llm: Option<seq<string>>)
    requires slots >= 2 && Trim(s) != ""
    requires forall i :: 0 <= i < |patterns| ==> !Hit(patterns[i], Trim(s), slots)
    requires var c := CommaList(Trim(s)); !(|c| > 1 && (AllNumeric(c) || |c| >= slots))
    requires |Words(Trim(s))| < slots
    ensures ResolveArguments(Scalar(Some(s)), slots, patterns, llm) == (if llm.Some? then llm.value else [s])
  {
    FirstCaptureIsFirst(Trim(s), patterns, slots);
  }
}
