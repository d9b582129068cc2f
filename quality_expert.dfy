/** The quality-expert skill: it splits its prompt into a file, a review profile and a
  * free-text context, asks the language model for a reviewed version of the file as JSON,
  * and returns the new content, or the original file when the model proposes no change.
  *
  * The repository carries two copies of the skill that differ in small ways: the one under
  * `src/skills/cskills` (`CSkills` here) and the one under `src/.AchillesSkills`
  * (`Achilles`). The model keeps both, with the differences made explicit. */
module QualityExpert {
  import opened Wrappers
  import opened Text
  import opened Keywords

  datatype Copy = CSkills | Achilles

  // ---------------------------------------------------------------------------------------
  // Profiles

  /** The supported review profiles: document and file-level design specifications. */
  datatype Profile = DS | FDS

  function UnsupportedProfile(profile: string): string {
    "quality-expert: Unsupported profile \"" + profile + "\" (TBD)."
  }

  function UnknownProfile(profile: string): string {
    "quality-expert: Unknown profile \"" + profile + "\"."
  }

  /** The profile named by `profile`, ignoring surrounding whitespace and ASCII case. The
    * names `docs` and `code` are recognised but not supported yet; the error messages
    * quote the profile as it was given. */
  function ProfileOf(profile: string): (r: Result<Profile>)
    ensures r == Ok(DS) <==> LowerAscii(Trim(profile)) == "ds"
    ensures r == Ok(FDS) <==> LowerAscii(Trim(profile)) == "fds"
    ensures r.Err? ==> r.message == UnsupportedProfile(profile) || r.message == UnknownProfile(profile)
    ensures r == Err(UnsupportedProfile(profile))
            <==> LowerAscii(Trim(profile)) == "docs" || LowerAscii(Trim(profile)) == "code"
  {
    var normalized := LowerAscii(Trim(profile));
    if normalized == "ds" then Ok(DS)
    else if normalized == "fds" then Ok(FDS)
    else if normalized == "docs" || normalized == "code" then Err(UnsupportedProfile(profile))
    else Err(UnknownProfile(profile))
  }

  /** Two spellings that agree up to surrounding whitespace and ASCII case select the
    * same profile. */
  lemma ProfileIgnoresSpelling(p: string, q: string)
    requires LowerAscii(Trim(p)) == LowerAscii(Trim(q))
    ensures ProfileOf(p).Ok? <==> ProfileOf(q).Ok?
    ensures ProfileOf(p).Ok? ==> ProfileOf(p) == ProfileOf(q)
  {}

  // ---------------------------------------------------------------------------------------
  // The prompt

  /** The three parameters of a review. */
  datatype Input = Input(fileContent: string, profile: string, context: string)

  const MissingInput := "quality-expert: Missing input string."
  const FormatError := "quality-expert: Invalid input format. Expected: fileContent: ... profile: ... context: ..."
  const MissingFileContent := "quality-expert: Missing required parameter fileContent."
  const MissingProfile := "quality-expert: Missing required parameter profile."
  const MissingContext := "quality-expert: Missing required parameter context."

  /** The markers of the three parameters; the `Achilles` copy matches them ignoring case. */
  function FileMarker(v: Copy): Marker { Marker("fileContent", false, v == Achilles) }
  function ProfileMarker(v: Copy): Marker { Marker("profile", false, v == Achilles) }
  function ContextMarker(v: Copy): Marker { Marker("context", false, v == Achilles) }

  /** Where a match starts and where it ends. */
  datatype Span = Span(start: nat, end: nat)

  /** The first match of `m` from `from`. */
  function NextField(text: string, m: Marker, from: nat): (r: Option<Span>)
    requires from <= |text|
    ensures r.Some? ==> from <= r.value.start < r.value.end <= |text|
    ensures r.Some? ==> MarkerAt(text, m, r.value.start)
                        && r.value.end == MarkerEnd(text, m, r.value.start)
    ensures r.Some? ==> forall j :: from <= j < r.value.start ==> !MarkerAt(text, m, j)
    ensures r.None? ==> forall j :: from <= j ==> !MarkerAt(text, m, j)
  {
    match FindMarker(text, m, from)
    case None => None
    case Some(i) => Some(Span(i, MarkerEnd(text, m, i)))
  }

  /** The match of `fileContent: … profile: … context: …` against `text`, with each group
    * trimmed. The lazy groups end at the first marker of the next parameter; a first
    * marker that has no later markers behind it cannot be rescued by a later one, since
    * every later marker ends no earlier, so the first marker of each kind decides. */
  function MatchFields(v: Copy, text: string): (r: Option<Input>)
    ensures r.Some? ==> IsTrimmed(r.value.fileContent) && IsTrimmed(r.value.profile)
                        && IsTrimmed(r.value.context)
  {
    MatchWith(text, FileMarker(v), ProfileMarker(v), ContextMarker(v))
  }

  /** The three-group match for any three markers. */
  function MatchWith(text: string, fm: Marker, pm: Marker, cm: Marker): (r: Option<Input>)
    ensures r.Some? ==> IsTrimmed(r.value.fileContent) && IsTrimmed(r.value.profile)
                        && IsTrimmed(r.value.context)
  {
    match NextField(text, fm, 0)
    case None => None
    case Some(Span(_, a)) =>
      (match NextField(text, pm, a)
       case None => None
       case Some(Span(p, b)) =>
         (match NextField(text, cm, b)
          case None => None
          case Some(Span(c, d)) =>
            Some(Input(Trim(text[a..p]), Trim(text[b..c]), Trim(text[d..])))))
  }

  /** `parseInput`: the prompt, trimmed, must match; the file and the profile must not be
    * empty, and in the `Achilles` copy neither may the context. */
  function ParseInput(v: Copy, raw: string): (r: Result<Input>)
    ensures Trim(raw) == "" ==> r == Err(MissingInput)
    ensures r.Ok? ==> r.value.fileContent != "" && r.value.profile != ""
                      && (v == Achilles ==> r.value.context != "")
    ensures r.Ok? ==> IsTrimmed(r.value.fileContent) && IsTrimmed(r.value.profile)
                      && IsTrimmed(r.value.context)
    ensures r.Err? ==> r.message in {MissingInput, FormatError, MissingFileContent,
                                     MissingProfile, MissingContext}
  {
    var text := Trim(raw);
    if text == "" then Err(MissingInput)
    else match MatchFields(v, text)
      case None => Err(FormatError)
      case Some(input) =>
        if input.fileContent == "" then Err(MissingFileContent)
        else if input.profile == "" then Err(MissingProfile)
        else if v == Achilles && input.context == "" then Err(MissingContext)
        else Ok(input)
  }

  /** `w` spells `word` as the copy's marker accepts it: exactly, or up to ASCII case. */
  predicate Spelled(v: Copy, w: string, word: string) {
    if v == Achilles then LowerAscii(w) == LowerAscii(word) else w == word
  }

  /** Every character of `word` is an ASCII letter. */
  predicate Letters(word: string) {
    forall k :: 0 <= k < |word| ==> IsAsciiLetter(word[k])
  }

  lemma LowerLetter(c: char)
    requires IsAsciiLetter(c)
    ensures IsAsciiLetter(LowerChar(c))
  {}

  /** Every character of a spelled keyword made of letters is a letter. */
  lemma WordLetter(s: string, word: string, j: nat, ignoreCase: bool, i: nat)
    requires WordAt(s, word, j, ignoreCase) && Letters(word) && j <= i < j + |word|
    ensures IsAsciiLetter(LowerChar(s[i]))
  {
    var k := i - j;
    assert s[j..j + |word|][k] == s[i];
    LowerLetter(word[k]);
    if ignoreCase {
      assert LowerAscii(s[j..j + |word|])[k] == LowerAscii(word)[k];
    }
  }

  /** A match of a keyword made of letters that starts at or before a line break, when
    * the character after the break is neither whitespace nor a colon, lies wholly in
    * front of the break. */
  lemma MarkerBeforeBreak(s: string, m: Marker, a: nat, e: nat, j: nat)
    requires a <= j <= e && e + 1 < |s| && s[e] == '\n'
    requires !IsSpace(s[e + 1]) && s[e + 1] != ':'
    requires !m.boundary && Letters(m.word) && m.word != ""
    ensures MarkerAt(s, m, j) ==> MarkerAt(s[a..e], m, j - a)
  {
    if MarkerAt(s, m, j) {
      WordBeforeBreak(s, m.word, j, m.ignoreCase, e);
      MarkerInFront(s, m, a, e, j);
    }
  }

  /** A keyword made of letters spelled at `j` ends before a line break at `e >= j`. */
  lemma WordBeforeBreak(s: string, word: string, j: nat, ignoreCase: bool, e: nat)
    requires WordAt(s, word, j, ignoreCase) && Letters(word) && word != ""
    requires j <= e < |s| && s[e] == '\n'
    ensures j + |word| <= e
  {
    WordLetter(s, word, j, ignoreCase, if j + |word| > e then e else j);
  }

  /** A match whose keyword lies in front of the line break is a match of `s[a..e]`. */
  lemma MarkerInFront(s: string, m: Marker, a: nat, e: nat, j: nat)
    requires a <= j && j + |m.word| <= e && e + 1 < |s| && s[e] == '\n'
    requires !IsSpace(s[e + 1]) && s[e + 1] != ':' && !m.boundary && MarkerAt(s, m, j)
    ensures MarkerAt(s[a..e], m, j - a)
  {
    var w := |m.word|;
    var slice := s[a..e];
    WordInFront(s, m.word, a, e, j, m.ignoreCase);
    SkipSpacesBefore(s, a, e, j + w);
    assert SkipSpaces(s, e) == SkipSpaces(s, e + 1) == e + 1;
    var k := SkipSpaces(s, j + w);
    assert k < e;
    assert SkipSpaces(slice, j - a + w) == k - a;
    assert slice[k - a] == s[k] == ':';
  }

  /** A keyword in front of `e` is spelled in `s[a..e]` too. */
  lemma WordInFront(s: string, word: string, a: nat, e: nat, j: nat, ignoreCase: bool)
    requires a <= j && j + |word| <= e <= |s| && WordAt(s, word, j, ignoreCase)
    ensures WordAt(s[a..e], word, j - a, ignoreCase)
  {
    SliceOfSlice(s, a, e, j - a, |word|);
  }

  /** Whitespace skipping in front of `e` goes as in `s[a..e]`; past `e` it goes on as from `e`. */
  lemma {:induction false} SkipSpacesBefore(s: string, a: nat, e: nat, n: nat)
    requires a <= n <= e <= |s|
    ensures SkipSpaces(s, n) < e ==> SkipSpaces(s[a..e], n - a) == SkipSpaces(s, n) - a
    ensures SkipSpaces(s, n) >= e ==> SkipSpaces(s, n) == SkipSpaces(s, e)
    decreases e - n
  {
    if n < e {
      assert s[a..e][n - a] == s[n];
      if IsSpace(s[n]) {
        SkipSpacesBefore(s, a, e, n + 1);
      }
    }
  }

  /** Hence no such match starts in `[a, e]` when `s[a..e]` holds none. */
  lemma NoMarkerUpToBreak(s: string, m: Marker, a: nat, e: nat, j: nat)
    requires a <= j <= e && e + 1 < |s| && s[e] == '\n'
    requires !IsSpace(s[e + 1]) && s[e + 1] != ':'
    requires !m.boundary && Letters(m.word) && m.word != ""
    requires NoMarker(s[a..e], m)
    ensures !MarkerAt(s, m, j)
  {
    MarkerBeforeBreak(s, m, a, e, j);
  }

  /** Whitespace skipping from `n` stops at `q` when `s[n..q]` is all whitespace and `s[q]` is not. */
  lemma {:induction false} SkipSpacesOver(s: string, n: nat, q: nat)
    requires n <= q <= |s| && AllSpace(s[n..q]) && (q < |s| ==> !IsSpace(s[q]))
    ensures SkipSpaces(s, n) == q
    decreases q - n
  {
    if n < q {
      assert s[n..q][0] == s[n];
      assert s[n + 1..q] == s[n..q][1..];
      SkipSpacesOver(s, n + 1, q);
    }
  }

  /** A keyword spelled as the copy accepts it and directly followed by a colon is a match;
    * it ends where the whitespace behind the colon does. */
  lemma SpelledMarker(v: Copy, s: string, word: string, p: nat, q: nat)
    requires p + |word| < q <= |s| && Spelled(v, s[p..p + |word|], word) && s[p + |word|] == ':'
    requires AllSpace(s[p + |word| + 1..q]) && (q < |s| ==> !IsSpace(s[q]))
    ensures MarkerAt(s, Marker(word, false, v == Achilles), p)
    ensures MarkerEnd(s, Marker(word, false, v == Achilles), p) == q
  {
    assert SkipSpaces(s, p + |word|) == p + |word|;
    SkipSpacesOver(s, p + |word| + 1, q);
  }

  /** A text that opens with the keyword, a colon and whitespace up to `a`, where something
    * else follows, has its first match at the start. */
  lemma LeadingMarker(v: Copy, s: string, m: Marker, a: nat)
    requires m == Marker(m.word, false, v == Achilles) && |m.word| < a < |s|
    requires Spelled(v, s[0..|m.word|], m.word) && s[|m.word|] == ':'
    requires AllSpace(s[|m.word| + 1..a]) && !IsSpace(s[a])
    ensures NextField(s, m, 0) == Some(Span(0, a))
  {
    SpelledMarker(v, s, m.word, 0, a);
    FirstMatch(s, m, 0, 0);
  }

  /** A keyword behind a line break, followed by a colon and whitespace up to `b`, is the
    * first match found from `a` when the stretch from `a` to the break holds none. */
  lemma MarkerAfterBreak(v: Copy, s: string, m: Marker, a: nat, p: nat, b: nat)
    requires m == Marker(m.word, false, v == Achilles) && Letters(m.word) && m.word != ""
    requires a < p && p + |m.word| < b <= |s| && s[p - 1] == '\n'
    requires Spelled(v, s[p..p + |m.word|], m.word) && s[p + |m.word|] == ':'
    requires AllSpace(s[p + |m.word| + 1..b]) && (b < |s| ==> !IsSpace(s[b]))
    requires NoMarker(s[a..p - 1], m)
    ensures NextField(s, m, a) == Some(Span(p, b))
  {
    SpelledMarker(v, s, m.word, p, b);
    SpelledIsLetter(v, s, m.word, p);
    forall j | a <= j < p ensures !MarkerAt(s, m, j) {
      NoMarkerUpToBreak(s, m, a, p - 1, j);
    }
    FirstMatch(s, m, a, p);
  }

  /** A keyword made of letters starts with a letter wherever it is spelled. */
  lemma SpelledIsLetter(v: Copy, s: string, word: string, p: nat)
    requires p + |word| <= |s| && word != "" && Letters(word) && Spelled(v, s[p..p + |word|], word)
    ensures !IsSpace(s[p]) && s[p] != ':'
  {
    assert s[p..p + |word|][0] == s[p];
    LowerLetter(word[0]);
    if v == Achilles {
      assert LowerAscii(s[p..p + |word|])[0] == LowerAscii(word)[0];
    }
  }

  /** A match at `p` with none between `from` and `p` is the first one. */
  lemma FirstMatch(s: string, m: Marker, from: nat, p: nat)
    requires from <= p && MarkerAt(s, m, p)
    requires forall j :: from <= j < p ==> !MarkerAt(s, m, j)
    ensures NextField(s, m, from) == Some(Span(p, MarkerEnd(s, m, p)))
  {}

  /** A trimmed stretch followed by a line break trims back to the stretch. */
  lemma TrimBeforeBreak(t: string, a: nat, p: nat)
    requires a < p <= |t| && t[p - 1] == '\n' && IsTrimmed(t[a..p - 1])
    ensures Trim(t[a..p]) == t[a..p - 1]
  {
    assert t[a..p] == "" + t[a..p - 1] + "\n";
    TrimOfTrimmedPadding("", t[a..p - 1], "\n");
  }

  /** The match over a text laid out as the first keyword, a colon and whitespace, the
    * file, a line break, the second keyword, a colon and whitespace, the profile, a line
    * break, the third keyword, a colon and whitespace, and the context; `a`, `b` and `d`
    * are where the three values start and `p` and `c` where the second and third keywords
    * do. Each group runs up to the line break in front of the next keyword. */
  lemma MatchLaidOut(v: Copy, t: string, fm: Marker, pm: Marker, cm: Marker,
                     a: nat, p: nat, b: nat, c: nat, d: nat)
    requires fm == Marker(fm.word, false, v == Achilles)
    requires pm == Marker(pm.word, false, v == Achilles) && Letters(pm.word) && pm.word != ""
    requires cm == Marker(cm.word, false, v == Achilles) && Letters(cm.word) && cm.word != ""
    requires |fm.word| < a < p && p + |pm.word| < b < c && c + |cm.word| < d <= |t|
    requires Spelled(v, t[0..|fm.word|], fm.word) && t[|fm.word|] == ':'
    requires AllSpace(t[|fm.word| + 1..a]) && !IsSpace(t[a])
    requires t[p - 1] == '\n' && Spelled(v, t[p..p + |pm.word|], pm.word)
    requires t[p + |pm.word|] == ':' && AllSpace(t[p + |pm.word| + 1..b]) && !IsSpace(t[b])
    requires NoMarker(t[a..p - 1], pm)
    requires t[c - 1] == '\n' && Spelled(v, t[c..c + |cm.word|], cm.word)
    requires t[c + |cm.word|] == ':' && AllSpace(t[c + |cm.word| + 1..d])
    requires d < |t| ==> !IsSpace(t[d])
    requires NoMarker(t[b..c - 1], cm)
    ensures MatchWith(t, fm, pm, cm) == Some(Input(Trim(t[a..p]), Trim(t[b..c]), Trim(t[d..])))
  {
    LeadingMarker(v, t, fm, a);
    MarkerAfterBreak(v, t, pm, a, p, b);
    MarkerAfterBreak(v, t, cm, b, c, d);
    MatchWithAt(t, fm, pm, cm, a, p, b, c, d);
  }

  /** The match is read off the first match of each marker. */
  lemma MatchWithAt(t: string, fm: Marker, pm: Marker, cm: Marker,
                    a: nat, p: nat, b: nat, c: nat, d: nat)
    requires a <= |t| && b <= |t|
    requires NextField(t, fm, 0) == Some(Span(0, a))
    requires NextField(t, pm, a) == Some(Span(p, b))
    requires NextField(t, cm, b) == Some(Span(c, d))
    ensures MatchWith(t, fm, pm, cm) == Some(Input(Trim(t[a..p]), Trim(t[b..c]), Trim(t[d..])))
  {}

  /** The prompt that gives each parameter on a line of its own: a keyword, a colon,
    * whitespace and the value. */
  function LaidOut(w1: string, w2: string, w3: string, g1: string, g2: string, g3: string,
                   fc: string, pf: string, cx: string): string
  {
    w1 + ":" + g1 + fc + "\n" + w2 + ":" + g2 + pf + "\n" + w3 + ":" + g3 + cx
  }

  /** Where the parts of a laid-out prompt sit. */
  lemma LayoutSlices(w1: string, w2: string, w3: string, g1: string, g2: string, g3: string,
                     fc: string, pf: string, cx: string, a: nat, p: nat, b: nat, c: nat, d: nat)
    requires |w1| == 11 && |w2| == 7 && |w3| == 7
    requires a == 12 + |g1| && p == a + |fc| + 1 && b == p + 8 + |g2| && c == b + |pf| + 1
    requires d == c + 8 + |g3|
    ensures var t := LaidOut(w1, w2, w3, g1, g2, g3, fc, pf, cx);
            |t| == d + |cx| && t[0..11] == w1 && t[11] == ':' && t[12..a] == g1
            && t[a..p - 1] == fc && t[p - 1] == '\n' && t[p..p + 7] == w2 && t[p + 7] == ':'
            && t[p + 8..b] == g2 && t[b..c - 1] == pf && t[c - 1] == '\n'
            && t[c..c + 7] == w3 && t[c + 7] == ':' && t[c + 8..d] == g3 && t[d..] == cx
  {}

  /** The laid-out prompt is parsed back into its file, profile and context, whatever ASCII
    * case the `Achilles` copy sees the keywords in. An empty context is accepted by the
    * `CSkills` copy and refused by the `Achilles` one. */
  lemma ParseLaidOut(v: Copy, w1: string, w2: string, w3: string, g1: string, g2: string,
                     g3: string, fc: string, pf: string, cx: string)
    requires |w1| == 11 && |w2| == 7 && |w3| == 7
    requires Spelled(v, w1, "fileContent") && Spelled(v, w2, "profile") && Spelled(v, w3, "context")
    requires AllSpace(g1) && AllSpace(g2) && AllSpace(g3) && (cx == "" ==> g3 == "")
    requires fc != "" && pf != "" && IsTrimmed(fc) && IsTrimmed(pf) && IsTrimmed(cx)
    requires NoMarker(fc, ProfileMarker(v)) && NoMarker(pf, ContextMarker(v))
    ensures ParseInput(v, LaidOut(w1, w2, w3, g1, g2, g3, fc, pf, cx))
            == if v == Achilles && cx == "" then Err(MissingContext) else Ok(Input(fc, pf, cx))
  {
    var t := LaidOut(w1, w2, w3, g1, g2, g3, fc, pf, cx);
    var a := 12 + |g1|;
    var p := a + |fc| + 1;
    var b := p + 8 + |g2|;
    var c := b + |pf| + 1;
    var d := c + 8 + |g3|;
    LayoutSlices(w1, w2, w3, g1, g2, g3, fc, pf, cx, a, p, b, c, d);
    MatchOfLayout(v, t, fc, pf, cx, a, p, b, c, d);
    LaidOutIsTrimmed(v, t, w1, cx, d);
    TrimOfTrimmed(t);
  }

  /** The match over a laid-out prompt, with the prompt and the positions of its parts
    * abstracted. */
  lemma MatchOfLayout(v: Copy, t: string, fc: string, pf: string, cx: string,
                      a: nat, p: nat, b: nat, c: nat, d: nat)
    requires 12 <= a < p && p + 8 <= b < c && c + 8 <= d && |t| == d + |cx|
    requires Spelled(v, t[0..11], "fileContent") && t[11] == ':' && AllSpace(t[12..a])
    requires t[a..p - 1] == fc && t[p - 1] == '\n' && Spelled(v, t[p..p + 7], "profile")
    requires t[p + 7] == ':' && AllSpace(t[p + 8..b])
    requires t[b..c - 1] == pf && t[c - 1] == '\n' && Spelled(v, t[c..c + 7], "context")
    requires t[c + 7] == ':' && AllSpace(t[c + 8..d]) && t[d..] == cx
    requires fc != "" && pf != "" && IsTrimmed(fc) && IsTrimmed(pf) && IsTrimmed(cx)
    requires NoMarker(fc, ProfileMarker(v)) && NoMarker(pf, ContextMarker(v))
    ensures MatchFields(v, t) == Some(Input(fc, pf, cx))
  {
    assert t[a] == fc[0] && t[b] == pf[0];
    assert cx != "" ==> t[d] == cx[0];
    MatchLaidOut(v, t, FileMarker(v), ProfileMarker(v), ContextMarker(v), a, p, b, c, d);
    TrimBeforeBreak(t, a, p);
    TrimBeforeBreak(t, b, c);
    TrimOfTrimmed(cx);
  }

  /** A laid-out prompt opens with a keyword and ends with the trimmed context or, when
    * that is empty, with a colon. */
  lemma LaidOutIsTrimmed(v: Copy, t: string, w1: string, cx: string, d: nat)
    requires 11 < d && |t| == d + |cx| && t[0..11] == w1 && Spelled(v, w1, "fileContent")
    requires (cx == "" ==> t[d - 1] == ':') && t[d..] == cx && IsTrimmed(cx)
    ensures IsTrimmed(t)
  {
    assert t[0] == w1[0];
    if v == Achilles {
      assert LowerAscii(w1)[0] == 'f';
    }
    if cx != "" {
      assert t[|t| - 1] == cx[|cx| - 1];
    }
  }

  // ---------------------------------------------------------------------------------------
  // The model's answer

  /** What `JSON.parse` makes of the model's answer: a syntax error with its message,
    * `null`, or any other value, with its `content` field when that is a string. */
  datatype Parsed = Invalid(message: string) | Null | Value(content: Option<string>)

  const NotAString := "quality-expert: llmAgent.executePrompt must return a string."
  const EmptyResponse := "quality-expert: LLM response must be a non-empty string."
  const NotJson := "quality-expert: LLM response is not valid JSON."
  const NoContent := "quality-expert: LLM JSON must include a string \"content\" field."
  const NoContentField := "quality-expert: LLM JSON response must include a \"content\" field of type string."
  /** The `TypeError` raised by reading `content` of `null`. */
  const NullContent := "Cannot read properties of null (reading 'content')"

  /** `executeQualityReview` after the model has answered `response` (`None` when the
    * answer is not a string), with `parse` standing for `JSON.parse`. */
  function Review(v: Copy, response: Option<string>, parse: string -> Parsed, fileContent: string)
    : (r: Result<string>)
    ensures r.Ok? ==> response.Some? && parse(response.value).Value?
                      && parse(response.value).content.Some?
    ensures r.Ok? ==> r.value == fileContent || r.value == parse(response.value).content.value
    ensures v == CSkills && r.Ok? ==> r.value != "" || fileContent == ""
    ensures v == Achilles && r.Ok? ==> Trim(r.value) != "" || r.value == fileContent
    ensures response.None? ==> r.Err?
  {
    match v
    case CSkills =>
      if response.None? || Trim(response.value) == "" then Err(EmptyResponse)
      else (match parse(response.value)
            case Invalid(message) => Err("quality-expert: LLM response is not valid JSON. Error: " + message)
            case Null => Err(NullContent)
            case Value(None) => Err(NoContentField)
            case Value(Some(content)) => Ok(if content == "" then fileContent else content))
    case Achilles =>
      if response.None? then Err(NotAString)
      else (match parse(response.value)
            case Invalid(_) => Err(NotJson)
            case Null => Err(NoContent)
            case Value(None) => Err(NoContent)
            case Value(Some(content)) => Ok(if Trim(content) == "" then fileContent else content))
  }

  /** An answer of `{"content": ""}` keeps the file in both copies; a non-empty content
    * replaces it. */
  lemma NoChangeKeepsFile(v: Copy, response: string, parse: string -> Parsed, fileContent: string)
    requires Trim(response) != "" && parse(response) == Value(Some(""))
    ensures Review(v, Some(response), parse, fileContent) == Ok(fileContent)
  {}

  /** The copies part on an answer whose content is only whitespace: `CSkills` returns it
    * as the new file, `Achilles` keeps the old one. */
  lemma BlankContentDiffers(response: string, parse: string -> Parsed, fileContent: string, blank: string)
    requires Trim(response) != "" && blank != "" && AllSpace(blank)
    requires parse(response) == Value(Some(blank))
    ensures Review(CSkills, Some(response), parse, fileContent) == Ok(blank)
    ensures Review(Achilles, Some(response), parse, fileContent) == Ok(fileContent)
  {
    TrimOfTrimmedPadding(blank, "", "");
    assert blank + "" + "" == blank;
  }

  /** `executeQualityReview`: parse the prompt, select the profile (the review prompt cannot
    * be built otherwise), then read the model's answer to the review prompt. */
  function Execute(v: Copy, prompt: string, response: Option<string>, parse: string -> Parsed)
    : (r: Result<string>)
    ensures ParseInput(v, prompt).Err? ==> r == Err(ParseInput(v, prompt).message)
    ensures ParseInput(v, prompt).Ok? && ProfileOf(ParseInput(v, prompt).value.profile).Err?
            ==> r == Err(ProfileOf(ParseInput(v, prompt).value.profile).message)
    ensures r.Ok? ==> ParseInput(v, prompt).Ok?
                      && ProfileOf(ParseInput(v, prompt).value.profile).Ok?
                      && r == Review(v, response, parse, ParseInput(v, prompt).value.fileContent)
  {
    match ParseInput(v, prompt)
    case Err(message) => Err(message)
    case Ok(input) =>
      (match ProfileOf(input.profile)
       case Err(message) => Err(message)
       case Ok(_) => Review(v, response, parse, input.fileContent))
  }

  const MissingAgent := "quality-expert: Missing required 'llmAgent' or 'promptText' in context."

  /** The `CSkills` entry point: without an agent or a non-empty prompt it fails at once;
    * otherwise the prompt, rid of its dependency annotations by `strip`, is reviewed. */
  function Action(hasAgent: bool, promptText: Option<string>, strip: string -> string,
                  response: Option<string>, parse: string -> Parsed): (r: Result<string>)
    ensures !hasAgent || promptText.None? || promptText == Some("") ==> r == Err(MissingAgent)
    ensures r.Ok? ==> hasAgent && promptText.Some? && promptText.value != ""
                      && r == Execute(CSkills, strip(promptText.value), response, parse)
  {
    if !hasAgent || promptText.None? || promptText.value == "" then Err(MissingAgent)
    else Execute(CSkills, strip(promptText.value), response, parse)
  }
}
