/** The `backlog-io` skill (`src/.AchillesSkills/backlog-io/index.mjs`): the prompt is read
  * as an operation, a backlog type and `key: value` parameters, checked against the
  * allowed operations, and dispatched to one backlog call. The backlog calls themselves
  * (`src/BacklogManager.mjs`, which forwards to a library) are not part of this model: a
  * dispatch is described by the call it makes. `JSON.parse` and the LLM are parameters. */
module BacklogSkill {
  import opened Wrappers
  import opened Text
  import opened Json
  import opened Keywords

  // ---------------------------------------------------------------------------------
  // parseKeyValueParams

  /** The alternatives of `keyPattern`, in order. */
  const ParamKeys: seq<string> :=
    ["taskId", "resolution", "updates", "initialContent", "optionsText", "tasksText", "dependsOn"]

  /** `\bkey\s*:\s*`, case-sensitive. */
  function KeyMarker(key: string): Marker {
    Marker(key, true, false)
  }

  /** The first alternative of `keys` that matches at `i`: the key `keyPattern` matches
    * there, if any, when `keys` is `ParamKeys`. */
  function KeyAt(s: string, keys: seq<string>, i: nat): (r: Option<string>)
    ensures r.Some? ==> r.value in keys && MarkerAt(s, KeyMarker(r.value), i)
    ensures r.None? ==> forall k :: k in keys ==> !MarkerAt(s, KeyMarker(k), i)
    decreases |keys|
  {
    if keys == [] then None
    else if MarkerAt(s, KeyMarker(keys[0]), i) then Some(keys[0])
    else KeyAt(s, keys[1..], i)
  }

  /** The leftmost position at or after `from` where `keyPattern` matches. */
  function FindKey(s: string, keys: seq<string>, from: nat): (r: Option<nat>)
    requires from <= |s|
    ensures r.Some? ==> from <= r.value <= |s| && KeyAt(s, keys, r.value).Some?
    ensures r.Some? ==> forall p :: from <= p < r.value ==> KeyAt(s, keys, p).None?
    ensures r.None? ==> forall p :: from <= p ==> KeyAt(s, keys, p).None?
    decreases |s| - from
  {
    if KeyAt(s, keys, from).Some? then Some(from)
    else if from == |s| then None
    else FindKey(s, keys, from + 1)
  }

  /** One element of `text.matchAll(keyPattern)`: the key, where the match starts, and
    * where it ends (after the colon and the whitespace behind it). */
  datatype KeyMatch = KeyMatch(key: string, start: nat, end: nat)

  /** The matches are in order, do not overlap, and lie in `s` after `from`. */
  predicate Ordered(ms: seq<KeyMatch>, s: string, from: nat) {
    (forall j :: 0 <= j < |ms| ==> from <= ms[j].start < ms[j].end <= |s|)
    && (forall j :: 0 <= j < |ms| - 1 ==> ms[j].end <= ms[j + 1].start)
  }

  /** `Array.from(text.matchAll(keyPattern))` from `from` on: each search resumes where the
    * previous match ended. */
  function KeyMatches(s: string, keys: seq<string>, from: nat): (r: seq<KeyMatch>)
    requires from <= |s|
    ensures Ordered(r, s, from)
    decreases |s| - from
  {
    match FindKey(s, keys, from)
    case None => []
    case Some(i) =>
      var key := KeyAt(s, keys, i).value;
      var e := MarkerEnd(s, KeyMarker(key), i);
      [KeyMatch(key, i, e)] + KeyMatches(s, keys, e)
  }

  /** Every match is a match of its key where it starts, and ends where that match ends. */
  lemma {:induction false} MatchIsKey(s: string, keys: seq<string>, from: nat, j: nat)
    requires from <= |s| && j < |KeyMatches(s, keys, from)|
    ensures var m := KeyMatches(s, keys, from)[j];
      KeyAt(s, keys, m.start) == Some(m.key) && m.end == MarkerEnd(s, KeyMarker(m.key), m.start)
    decreases j
  {
    var i := FindKey(s, keys, from).value;
    var e := MarkerEnd(s, KeyMarker(KeyAt(s, keys, i).value), i);
    var ms := KeyMatches(s, keys, from);
    if j > 0 {
      var rest := KeyMatches(s, keys, e);
      assert ms[1..] == rest;
      assert ms[j] == rest[j - 1];
      MatchIsKey(s, keys, e, j - 1);
    }
  }

  /** Every match is of one of the keys. */
  lemma MatchedKeysIn(s: string, keys: seq<string>, from: nat)
    requires from <= |s|
    ensures var ms := KeyMatches(s, keys, from); forall j :: 0 <= j < |ms| ==> ms[j].key in keys
  {
    var ms := KeyMatches(s, keys, from);
    forall j | 0 <= j < |ms| ensures ms[j].key in keys {
      MatchIsKey(s, keys, from, j);
    }
  }

  /** No key matches from `from` up to the first match. */
  lemma NoKeyBeforeFirst(s: string, keys: seq<string>, from: nat, p: nat)
    requires from <= p && from <= |s|
    requires var ms := KeyMatches(s, keys, from); ms != [] ==> p < ms[0].start
    ensures KeyAt(s, keys, p).None?
  {
    match FindKey(s, keys, from)
    case None =>
    case Some(i) =>
      assert KeyMatches(s, keys, from)[0].start == i;
  }

  /** No key matches between the end of a match and the start of the next. */
  lemma {:induction false} NoKeyInGap(s: string, keys: seq<string>, from: nat, j: nat, p: nat)
    requires from <= |s|
    requires var ms := KeyMatches(s, keys, from); j + 1 < |ms| && ms[j].end <= p < ms[j + 1].start
    ensures KeyAt(s, keys, p).None?
    decreases j
  {
    var i := FindKey(s, keys, from).value;
    var e := MarkerEnd(s, KeyMarker(KeyAt(s, keys, i).value), i);
    var ms := KeyMatches(s, keys, from);
    var rest := KeyMatches(s, keys, e);
    assert ms[1..] == rest;
    if j == 0 {
      assert ms[0].end == e && ms[1] == rest[0];
      NoKeyBeforeFirst(s, keys, e, p);
    } else {
      assert ms[j] == rest[j - 1] && ms[j + 1] == rest[j];
      NoKeyInGap(s, keys, e, j - 1, p);
    }
  }

  /** No key matches from the end of the last match on. */
  lemma {:induction false} NoKeyAfterLast(s: string, keys: seq<string>, from: nat, p: nat)
    requires from <= |s|
    requires var ms := KeyMatches(s, keys, from); ms != [] && ms[|ms| - 1].end <= p
    ensures KeyAt(s, keys, p).None?
    decreases |s| - from
  {
    var i := FindKey(s, keys, from).value;
    var e := MarkerEnd(s, KeyMarker(KeyAt(s, keys, i).value), i);
    var ms := KeyMatches(s, keys, from);
    var rest := KeyMatches(s, keys, e);
    assert ms[1..] == rest;
    if rest == [] {
      assert ms[0].end == e;
    } else {
      assert ms[|ms| - 1] == rest[|rest| - 1];
      NoKeyAfterLast(s, keys, e, p);
    }
  }

  /** A parameter value: text, or what `JSON.parse` made of `updates`. */
  datatype Param = PText(text: string) | PJson(value: Json)

  /** `parseMaybeJson(value)`; `parse` stands for `JSON.parse`, `None` when it throws. */
  function ParseMaybeJson(value: string, parse: string -> Option<Json>): Param {
    var trimmed := Trim(value);
    if trimmed == "" then PText(trimmed)
    else if StartsWith(trimmed, "{") || StartsWith(trimmed, "[") then
      (match parse(trimmed)
       case Some(v) => PJson(v)
       case None => PText(value))
    else PText(value)
  }

  /** Where the value of match `j` ends: at the next match, or at the end of the text. */
  function ValueEnd(s: string, ms: seq<KeyMatch>, j: nat): nat
    requires Ordered(ms, s, 0) && j < |ms|
  {
    if j + 1 < |ms| then ms[j + 1].start else |s|
  }

  /** The trimmed text of the value of match `j`. */
  function RawValue(s: string, ms: seq<KeyMatch>, j: nat): string
    requires Ordered(ms, s, 0) && j < |ms|
  {
    Trim(s[ms[j].end..ValueEnd(s, ms, j)])
  }

  /** What the loop stores for match `j`. */
  function ParamValue(s: string, ms: seq<KeyMatch>, j: nat, parse: string -> Option<Json>): Param
    requires Ordered(ms, s, 0) && j < |ms|
  {
    var raw := RawValue(s, ms, j);
    if raw == "" then PText("")
    else if ms[j].key == "updates" then ParseMaybeJson(raw, parse)
    else PText(raw)
  }

  /** The object after the first `n` matches: a later match of a key overwrites an earlier. */
  function ParamsAfter(s: string, ms: seq<KeyMatch>, n: nat, parse: string -> Option<Json>): map<string, Param>
    requires Ordered(ms, s, 0) && n <= |ms|
  {
    if n == 0 then map[]
    else ParamsAfter(s, ms, n - 1, parse)[ms[n - 1].key := ParamValue(s, ms, n - 1, parse)]
  }

  /** `parseKeyValueParams(text)`: `{}` for a blank text, otherwise one entry per key that
    * has a match. */
  function Params(text: string, parse: string -> Option<Json>): map<string, Param> {
    if Trim(text) == "" then map[]
    else
      var ms := KeyMatches(text, ParamKeys, 0);
      ParamsAfter(text, ms, |ms|, parse)
  }

  /** `parseKeyValueParams(text)`: the loop over the matches fills `result`. */
  method ParseKeyValueParams(text: string, parse: string -> Option<Json>) returns (result: map<string, Param>)
    ensures result == Params(text, parse)
  {
    result := map[];
    if Trim(text) == "" {
      return;
    }
    var matches := KeyMatches(text, ParamKeys, 0);
    if |matches| == 0 {
      return;
    }
    result := StoreValues(text, matches, parse);
  }

  /** The loop of `parseKeyValueParams` over the matches, in order. */
  method StoreValues(text: string, matches: seq<KeyMatch>, parse: string -> Option<Json>) returns (result: map<string, Param>)
    requires Ordered(matches, text, 0)
    ensures result == ParamsAfter(text, matches, |matches|, parse)
  {
    result := map[];
    for i := 0 to |matches|
      invariant result == ParamsAfter(text, matches, i, parse)
    {
      var key := matches[i].key;
      var valueStart := matches[i].end;
      var valueEnd := if i + 1 < |matches| then matches[i + 1].start else |text|;
      var rawValue := Trim(text[valueStart..valueEnd]);
      assert rawValue == RawValue(text, matches, i);
      ghost var stored := ParamValue(text, matches, i, parse);
      assert ParamsAfter(text, matches, i + 1, parse) == result[key := stored];
      if rawValue == "" {
        result := result[key := PText("")];
        continue;
      }
      if key == "updates" {
        result := result[key := ParseMaybeJson(rawValue, parse)];
      } else {
        result := result[key := PText(rawValue)];
      }
    }
  }

  /** The keys of the object are exactly the keys that have a match. */
  lemma {:induction false} ParamsAfterKeys(s: string, ms: seq<KeyMatch>, n: nat, parse: string -> Option<Json>)
    requires Ordered(ms, s, 0) && n <= |ms|
    ensures forall k :: k in ParamsAfter(s, ms, n, parse) <==> exists j :: 0 <= j < n && ms[j].key == k
  {
    if n > 0 {
      ParamsAfterKeys(s, ms, n - 1, parse);
    }
  }

  /** Each key holds the value of its last match. */
  lemma {:induction false} ParamsAfterLastWins(s: string, ms: seq<KeyMatch>, n: nat, parse: string -> Option<Json>, j: nat)
    requires Ordered(ms, s, 0) && j < n <= |ms|
    requires forall j' :: j < j' < n ==> ms[j'].key != ms[j].key
    ensures ms[j].key in ParamsAfter(s, ms, n, parse)
    ensures ParamsAfter(s, ms, n, parse)[ms[j].key] == ParamValue(s, ms, j, parse)
  {
    if j < n - 1 {
      ParamsAfterLastWins(s, ms, n - 1, parse, j);
    }
  }

  /** A blank text, or one without any key marker, gives `{}`; otherwise the keys are those
    * of the markers found, each holding the value of its last marker. */
  lemma ParamsFacts(text: string, parse: string -> Option<Json>)
    ensures KeyMatches(text, ParamKeys, 0) == [] ==> Params(text, parse) == map[]
    ensures Trim(text) != "" ==>
      var ms := KeyMatches(text, ParamKeys, 0);
      forall k :: k in Params(text, parse) <==> exists j :: 0 <= j < |ms| && ms[j].key == k
    ensures forall k :: k in Params(text, parse) ==> k in ParamKeys
  {
    var ms := KeyMatches(text, ParamKeys, 0);
    ParamsAfterKeys(text, ms, |ms|, parse);
    MatchedKeysIn(text, ParamKeys, 0);
  }

  /** A value never runs past the next recognised marker: no key matches anywhere from the
    * end of its marker up to where the value ends (for `ParamKeys` as for any list of keys). */
  lemma ValueHoldsNoMarker(text: string, keys: seq<string>, j: nat, p: nat)
    requires var ms := KeyMatches(text, keys, 0); j < |ms| && ms[j].end <= p < ValueEnd(text, ms, j)
    ensures KeyAt(text, keys, p).None?
  {
    var ms := KeyMatches(text, keys, 0);
    if j + 1 < |ms| {
      NoKeyInGap(text, keys, 0, j, p);
    } else {
      NoKeyAfterLast(text, keys, 0, p);
    }
  }

  /** A non-blank value of `updates` that does not start with a bracket stays text; a
    * bracketed one is the parsed JSON when it parses. */
  lemma ParseMaybeJsonFacts(value: string, parse: string -> Option<Json>)
    requires IsTrimmed(value) && value != ""
    ensures !(StartsWith(value, "{") || StartsWith(value, "[")) ==> ParseMaybeJson(value, parse) == PText(value)
    ensures (StartsWith(value, "{") || StartsWith(value, "[")) ==>
      ParseMaybeJson(value, parse) == (if parse(value).Some? then PJson(parse(value).value) else PText(value))
  {
    TrimOfTrimmed(value);
  }

  // ---------------------------------------------------------------------------------
  // The command line

  /** The end of the run of non-whitespace characters starting at `i`. */
  function WordEnd(s: string, i: nat): (e: nat)
    requires i <= |s|
    ensures i <= e <= |s|
    ensures forall p :: i <= p < e ==> !IsSpace(s[p])
    ensures e < |s| ==> IsSpace(s[e])
    decreases |s| - i
  {
    if i < |s| && !IsSpace(s[i]) then WordEnd(s, i + 1) else i
  }

  /** `s.trim().split(/\s+/)[0]` */
  function FirstToken(s: string): string {
    var t := Trim(s);
    t[..WordEnd(t, 0)]
  }

  /** The three groups of `/^(\S+)(?:\s+(\S+))?(?:\s+([\s\S]*))?$/` on the trimmed prompt:
    * the operation, the type, and the parameter text (`''` when absent). */
  datatype CommandLine = CommandLine(operation: Option<string>, kind: Option<string>, paramText: string)

  function ParseCommandLine(trimmed: string): CommandLine
    requires IsTrimmed(trimmed)
  {
    if trimmed == "" then CommandLine(None, None, "")
    else
      var n := WordEnd(trimmed, 0);
      if n == |trimmed| then CommandLine(Some(trimmed), None, "")
      else
        var m := SkipSpaces(trimmed, n);
        var e := WordEnd(trimmed, m);
        if e == |trimmed| then CommandLine(Some(trimmed[..n]), Some(trimmed[m..]), "")
        else CommandLine(Some(trimmed[..n]), Some(trimmed[m..e]), trimmed[SkipSpaces(trimmed, e)..])
  }

  /** Runs of whitespace between the three parts. */
  predicate Gap(w: string) {
    w != "" && AllSpace(w)
  }

  predicate Word(w: string) {
    w != "" && forall i :: 0 <= i < |w| ==> !IsSpace(w[i])
  }

  /** `WordEnd` stops at the first whitespace character. */
  lemma {:induction false} WordEndIs(s: string, i: nat, e: nat)
    requires i <= e <= |s|
    requires forall p :: i <= p < e ==> !IsSpace(s[p])
    requires e < |s| ==> IsSpace(s[e])
    ensures WordEnd(s, i) == e
    decreases e - i
  {
    if i < e {
      WordEndIs(s, i + 1, e);
    }
  }

  /** `SkipSpaces` stops at the first character that is not whitespace. */
  lemma {:induction false} SkipSpacesIs(s: string, i: nat, e: nat)
    requires i <= e < |s|
    requires forall p :: i <= p < e ==> IsSpace(s[p])
    requires !IsSpace(s[e])
    ensures SkipSpaces(s, i) == e
    decreases e - i
  {
    if i < e {
      SkipSpacesIs(s, i + 1, e);
    }
  }

  /** A word `s[i..e]` followed by whitespace or the end ends at `e`. */
  lemma WordThenSpace(s: string, i: nat, e: nat)
    requires i <= e <= |s| && Word(s[i..e]) && (e < |s| ==> IsSpace(s[e]))
    ensures WordEnd(s, i) == e
  {
    assert forall p :: i <= p < e ==> s[p] == s[i..e][p - i];
    WordEndIs(s, i, e);
  }

  /** A gap `s[i..e]` followed by a character that is not whitespace is skipped up to `e`. */
  lemma GapThenText(s: string, i: nat, e: nat)
    requires i <= e < |s| && Gap(s[i..e]) && !IsSpace(s[e])
    ensures SkipSpaces(s, i) == e
  {
    assert forall p :: i <= p < e ==> s[p] == s[i..e][p - i];
    SkipSpacesIs(s, i, e);
  }

  /** A trimmed prompt cut into a word, a gap, a word, a gap and the rest reads back as
    * the two words and the rest. */
  lemma ParseCommandLineAt(t: string, n: nat, m: nat, e: nat, f: nat)
    requires n <= m <= e <= f < |t| && IsTrimmed(t) && !IsSpace(t[f])
    requires Word(t[..n]) && Gap(t[n..m]) && Word(t[m..e]) && Gap(t[e..f])
    ensures ParseCommandLine(t) == CommandLine(Some(t[..n]), Some(t[m..e]), t[f..])
  {
    assert t[n] == t[n..m][0] && t[m] == t[m..e][0] && t[e] == t[e..f][0];
    assert t[..n] == t[0..n];
    WordThenSpace(t, 0, n);
    GapThenText(t, n, m);
    WordThenSpace(t, m, e);
    GapThenText(t, e, f);
  }

  /** A prompt written as operation, type and parameters reads back as those three parts. */
  lemma ParseCommandLineOfParts(op: string, g1: string, kind: string, g2: string, paramText: string)
    requires Word(op) && Gap(g1) && Word(kind) && Gap(g2) && paramText != "" && IsTrimmed(paramText)
    ensures IsTrimmed(op + g1 + kind + g2 + paramText)
    ensures ParseCommandLine(op + g1 + kind + g2 + paramText) == CommandLine(Some(op), Some(kind), paramText)
  {
    var t := op + g1 + kind + g2 + paramText;
    var n, m := |op|, |op| + |g1|;
    var e := m + |kind|;
    var f := e + |g2|;
    assert t[..n] == op && t[n..m] == g1 && t[m..e] == kind && t[e..f] == g2 && t[f..] == paramText;
    assert t[0] == op[0] && t[|t| - 1] == paramText[|paramText| - 1] && t[f] == paramText[0];
    ParseCommandLineAt(t, n, m, e, f);
  }

  // ---------------------------------------------------------------------------------
  // action and executeBacklogOperation

  /** `allowedOperations` */
  const AllowedOperations: set<string> := {
    "createBacklog", "loadBacklog", "getTask", "approveTask", "getApprovedTasks", "getNewTasks",
    "markDone", "addOptionsFromText", "addTasksFromText", "updateTask", "addTask"}

  /** The arguments `executeBacklogOperation` receives; `None` is `undefined`. */
  datatype Request = Request(
    operation: Option<string>, kind: Option<string>, taskId: Option<Param>, resolution: Option<Param>,
    updates: Option<Param>, initialContent: Option<Param>, optionsText: Option<Param>, tasksText: Option<Param>)

  /** The backlog call a dispatch makes, with its arguments. */
  datatype BacklogCall =
    | CreateBacklog(kind: Option<string>)
    | LoadBacklog(kind: Option<string>)
    | GetTask(kind: Option<string>, taskId: Option<Param>)
    | ApproveTask(kind: Option<string>, taskId: Option<Param>, resolution: Option<Param>)
    | GetApprovedTasks(kind: Option<string>)
    | GetNewTasks(kind: Option<string>)
    | MarkDone(kind: Option<string>, taskId: Option<Param>)
    | AddOptionsFromText(kind: Option<string>, taskId: Option<Param>, optionsText: Option<Param>)
    | AddTasksFromText(kind: Option<string>, tasksText: Option<Param>)
    | UpdateTask(kind: Option<string>, taskId: Option<Param>, updates: Option<Param>)
    | AddTask(kind: Option<string>, initialContent: Option<Param>)
  {
    /** The operation name that selects this call. */
    function Name(): string {
      match this
      case CreateBacklog(_) => "createBacklog"
      case LoadBacklog(_) => "loadBacklog"
      case GetTask(_, _) => "getTask"
      case ApproveTask(_, _, _) => "approveTask"
      case GetApprovedTasks(_) => "getApprovedTasks"
      case GetNewTasks(_) => "getNewTasks"
      case MarkDone(_, _) => "markDone"
      case AddOptionsFromText(_, _, _) => "addOptionsFromText"
      case AddTasksFromText(_, _) => "addTasksFromText"
      case UpdateTask(_, _, _) => "updateTask"
      case AddTask(_, _) => "addTask"
    }
  }

  /** What the skill does: throw with a message, or make a call and return its result
    * (`""` instead of the result when `discardResult`). */
  datatype Outcome = Throws(message: string) | Invokes(call: BacklogCall, discardResult: bool)

  /** `executeBacklogOperation(request)` */
  function ExecuteBacklogOperation(r: Request): Outcome {
    if r.operation.None? || r.operation.value == "" then Throws("Invalid input: operation is required.")
    else
      match r.operation.value
      case "createBacklog" => Invokes(CreateBacklog(r.kind), false)
      case "loadBacklog" => Invokes(LoadBacklog(r.kind), false)
      case "getTask" => Invokes(GetTask(r.kind, r.taskId), false)
      case "approveTask" => Invokes(ApproveTask(r.kind, r.taskId, r.resolution), false)
      case "getApprovedTasks" => Invokes(GetApprovedTasks(r.kind), false)
      case "getNewTasks" => Invokes(GetNewTasks(r.kind), false)
      case "markDone" => Invokes(MarkDone(r.kind, r.taskId), false)
      case "addOptionsFromText" => Invokes(AddOptionsFromText(r.kind, r.taskId, r.optionsText), true)
      case "addTasksFromText" => Invokes(AddTasksFromText(r.kind, r.tasksText), false)
      case "updateTask" => Invokes(UpdateTask(r.kind, r.taskId, r.updates), false)
      case "addTask" => Invokes(AddTask(r.kind, r.initialContent), false)
      case _ => Throws("Unknown operation: " + r.operation.value)
  }

  /** Every allowed operation makes the call of that name, and only `addOptionsFromText`
    * returns `""`; any other operation throws. */
  lemma ExecuteDispatches(r: Request)
    ensures r.operation.Some? && r.operation.value in AllowedOperations ==>
      var o := ExecuteBacklogOperation(r);
      o.Invokes? && o.call.Name() == r.operation.value && o.call.kind == r.kind
      && (o.discardResult <==> r.operation.value == "addOptionsFromText")
    ensures (r.operation.None? || r.operation.value !in AllowedOperations) ==> ExecuteBacklogOperation(r).Throws?
  {
  }

  /** `${operation}` */
  function ShowOperation(op: Option<string>): string {
    if op.Some? then op.value else "undefined"
  }

  /** The entry of a parsed parameter, `undefined` when absent. */
  function Lookup(params: map<string, Param>, key: string): Option<Param> {
    if key in params then Some(params[key]) else None
  }

  /** Element `i` of the LLM's array as a parameter, `undefined` past its end. */
  function Nth(values: seq<Option<string>>, i: nat): Option<string> {
    if i < |values| then values[i] else None
  }

  function AsParam(v: Option<string>): Option<Param> {
    if v.Some? then Some(PText(v.value)) else None
  }

  /** The operation and the type are outside what the skill accepts. */
  predicate Rejected(operation: Option<string>, kind: Option<string>) {
    !(operation.Some? && operation.value in AllowedOperations)
    || (kind.Some? && kind.value != "" && kind.value != "specs" && kind.value != "docs")
  }

  /** `action(context)` with `promptText` (`None` for `null`/`undefined`), whether
    * `llmAgent.complete` is a function, and what `extractArgumentsWithLLM` returns (each
    * element `None` when it is not a string). */
  function Action(promptText: Option<string>, canComplete: bool, llm: Option<seq<Option<string>>>,
                  parse: string -> Option<Json>): Outcome
  {
    var trimmed := Trim(promptText.GetOr(""));
    var line := ParseCommandLine(trimmed);
    var params := Params(line.paramText, parse);
    var operation := if line.operation.Some? then Some(FirstToken(line.operation.value)) else None;
    // The type is trimmed and lower-cased before the check against `specs` and `docs`, and
    // the type the LLM extracts is treated the same way (backlog-io/index.mjs:67-68) although
    // it is not checked again: either way it is the kind the backlog call receives.
    var kind := if line.kind.Some? then Some(LowerAscii(Trim(line.kind.value))) else None;
    var request := Request(operation, kind, Lookup(params, "taskId"), Lookup(params, "resolution"),
      Lookup(params, "updates"), Lookup(params, "initialContent"), Lookup(params, "optionsText"),
      Lookup(params, "tasksText"));
    if !Rejected(operation, kind) then ExecuteBacklogOperation(request)
    else if !canComplete || llm.None? then Throws("Unknown operation: " + ShowOperation(operation))
    else
      var vs := llm.value;
      var op2 := if Nth(vs, 0).Some? then Some(FirstToken(Nth(vs, 0).value)) else None;
      var kind2 := if Nth(vs, 1).Some? then Some(LowerAscii(Trim(Nth(vs, 1).value))) else None;
      ExecuteBacklogOperation(request.(operation := op2, kind := kind2, taskId := AsParam(Nth(vs, 2)),
        resolution := AsParam(Nth(vs, 3)), initialContent := AsParam(Nth(vs, 4)),
        optionsText := AsParam(Nth(vs, 5)), tasksText := AsParam(Nth(vs, 6))))
  }

  /** Without the LLM, a rejected operation or type throws `Unknown operation: <op>`; an
    * accepted one makes the call of that name. */
  lemma ActionWithoutLlm(promptText: Option<string>, llm: Option<seq<Option<string>>>, parse: string -> Option<Json>)
    ensures var line := ParseCommandLine(Trim(promptText.GetOr("")));
      var operation := if line.operation.Some? then Some(FirstToken(line.operation.value)) else None;
      var kind := if line.kind.Some? then Some(LowerAscii(Trim(line.kind.value))) else None;
      var o := Action(promptText, false, llm, parse);
      && (Rejected(operation, kind) ==> o == Throws("Unknown operation: " + ShowOperation(operation)))
      && (!Rejected(operation, kind) ==> o.Invokes? && o.call.Name() == operation.value)
  {
    var line := ParseCommandLine(Trim(promptText.GetOr("")));
    var operation := if line.operation.Some? then Some(FirstToken(line.operation.value)) else None;
    var kind := if line.kind.Some? then Some(LowerAscii(Trim(line.kind.value))) else None;
    var params := Params(line.paramText, parse);
    ExecuteDispatches(Request(operation, kind, Lookup(params, "taskId"), Lookup(params, "resolution"),
      Lookup(params, "updates"), Lookup(params, "initialContent"), Lookup(params, "optionsText"),
      Lookup(params, "tasksText")));
  }

  /** With the LLM, a rejected request is replaced by the arguments the LLM extracts, which
    * are not checked again: the first word of its operation selects the call, and its type,
    * trimmed and lower-cased, is the kind that call receives, whatever that type is. */
  lemma ActionWithLlm(promptText: Option<string>, vs: seq<Option<string>>, parse: string -> Option<Json>)
    ensures var line := ParseCommandLine(Trim(promptText.GetOr("")));
      var operation := if line.operation.Some? then Some(FirstToken(line.operation.value)) else None;
      var kind := if line.kind.Some? then Some(LowerAscii(Trim(line.kind.value))) else None;
      var op2 := if Nth(vs, 0).Some? then Some(FirstToken(Nth(vs, 0).value)) else None;
      var kind2 := if Nth(vs, 1).Some? then Some(LowerAscii(Trim(Nth(vs, 1).value))) else None;
      var o := Action(promptText, true, Some(vs), parse);
      Rejected(operation, kind) ==>
        && (op2.Some? && op2.value in AllowedOperations ==>
              o.Invokes? && o.call.Name() == op2.value && o.call.kind == kind2)
        && (!(op2.Some? && op2.value in AllowedOperations) ==> o.Throws?)
  {
    var line := ParseCommandLine(Trim(promptText.GetOr("")));
    var operation := if line.operation.Some? then Some(FirstToken(line.operation.value)) else None;
    var kind := if line.kind.Some? then Some(LowerAscii(Trim(line.kind.value))) else None;
    var params := Params(line.paramText, parse);
    var request := Request(operation, kind, Lookup(params, "taskId"), Lookup(params, "resolution"),
      Lookup(params, "updates"), Lookup(params, "initialContent"), Lookup(params, "optionsText"),
      Lookup(params, "tasksText"));
    var op2 := if Nth(vs, 0).Some? then Some(FirstToken(Nth(vs, 0).value)) else None;
    var kind2 := if Nth(vs, 1).Some? then Some(LowerAscii(Trim(Nth(vs, 1).value))) else None;
    ExecuteDispatches(request.(operation := op2, kind := kind2, taskId := AsParam(Nth(vs, 2)),
      resolution := AsParam(Nth(vs, 3)), initialContent := AsParam(Nth(vs, 4)),
      optionsText := AsParam(Nth(vs, 5)), tasksText := AsParam(Nth(vs, 6))));
  }
}
