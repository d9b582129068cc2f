/** `src/.AchillesSkills/parse-file-markers/index.mjs`: the text after `content:` is cut at
  * `<!-- FILE: path -->` marker lines by a loop around `exec` of a global regular expression.
  *
  * `exec` of a global expression resumes at `lastIndex`, the end of the previous match, and
  * when it finds nothing it returns `null` and sets `lastIndex` back to 0. The successive
  * matches are therefore a fixed list, and the loop only moves through it: `lastIndex` is
  * modelled as the number of matches taken from that list since the last reset. */
module ParseFileMarkers {
  import opened Wrappers
  import opened Text
  import opened CreateSrcSpecs

  // ---------------------------------------------------------------------------------
  // The prompt

  /** The first occurrence of `sub` in `s` at or after `from`. */
  function IndexOf(s: string, sub: string, from: nat): (r: Option<nat>)
    requires from <= |s|
    ensures r.Some? ==> from <= r.value && OccursAt(s, sub, r.value)
    ensures r.Some? ==> forall i :: from <= i < r.value ==> !OccursAt(s, sub, i)
    ensures r.None? ==> forall i :: from <= i ==> !OccursAt(s, sub, i)
    decreases |s| - from
  {
    if OccursAt(s, sub, from) then Some(from)
    else if from == |s| then None
    else IndexOf(s, sub, from + 1)
  }

  const FormatError := "Invalid prompt format for parse-file-markers: expected \"content: ...\""

  /** `prompt.match(/content:\s*(.+)/s)` and `match[1].trim()`: the trimmed text after the
    * first `content:`. The expression needs at least one character after it, so a prompt
    * that ends with its first `content:` does not match. */
  function ContentOf(prompt: string): (r: Result<string>)
    ensures r.Ok? ==> IsTrimmed(r.value)
    ensures r.Err? ==> r.message == FormatError
    ensures !Contains(prompt, "content:") ==> r.Err?
  {
    match IndexOf(prompt, "content:", 0)
    case None => Err(FormatError)
    case Some(i) => if i + 8 == |prompt| then Err(FormatError) else Ok(Trim(prompt[i + 8..]))
  }

  /** The text after `content:` is found wherever the first `content:` sits. */
  lemma ContentOfText(before: string, text: string)
    requires !Contains(before + "content", "content:") && text != ""
    ensures ContentOf(before + "content:" + text) == Ok(Trim(text))
  {
    var p := before + "content:" + text;
    assert OccursAt(p, "content:", |before|);
    var i := IndexOf(p, "content:", 0).value;
    if i < |before| {
      assert p[i..i + 8] == (before + "content")[i..i + 8];
      assert OccursAt(before + "content", "content:", i);
    }
    assert p[|before| + 8..] == text;
  }

  // ---------------------------------------------------------------------------------
  // The matches of `/^<!--\s*FILE:\s*(.+?)\s*-->$/gm`

  /* The matches are found by `LineMarkers`, which takes the test of one line as the
   * parameter `marker`; `Action` sets it to `MarkerPath`, the expression `^<!--\s*FILE:\s*(.+?)\s*-->$`
   * on a whole line with the path trimmed. */

  /** One match: where it starts (`index`), where it ends (`index + match[0].length`) and
    * `match[1].trim()`. */
  datatype MarkerMatch = MarkerMatch(index: nat, end: nat, path: string)

  /** The matches are in order, do not overlap and lie within the text. */
  predicate Ordered(ms: seq<MarkerMatch>, content: string) {
    (forall j :: 0 <= j < |ms| ==> ms[j].index <= ms[j].end <= |content|)
    && (forall j, j' :: 0 <= j < j' < |ms| ==> ms[j].end <= ms[j'].index)
  }

  /** The end of the line starting at `i`: the next line terminator, or the end. */
  function LineEnd(s: string, i: nat): (e: nat)
    requires i <= |s|
    ensures i <= e <= |s| && (e < |s| ==> IsLineTerminator(s[e]))
    ensures NoLineTerminator(s[i..e])
    decreases |s| - i
  {
    if i == |s| || IsLineTerminator(s[i]) then i
    else
      var e := LineEnd(s, i + 1);
      assert s[i..e] == [s[i]] + s[i + 1..e];
      e
  }

  /** The successive matches from the line starting at `from` on, for markers that sit on one
    * line each: `^` and `$` of the `m` flag bound the line, and the line is a marker line. */
  function LineMarkers(marker: string -> Option<string>, content: string, from: nat): (ms: seq<MarkerMatch>)
    requires from <= |content|
    ensures forall j :: 0 <= j < |ms| ==> from <= ms[j].index <= ms[j].end <= |content|
    decreases |content| - from
  {
    var e := LineEnd(content, from);
    var rest := if e == |content| then [] else LineMarkers(marker, content, e + 1);
    match marker(content[from..e])
    case Some(p) => [MarkerMatch(from, e, p)] + rest
    case None => rest
  }

  /** A match is a whole line that is a marker line: it starts at a line start and ends at a
    * line end, and it holds no line terminator. */
  predicate IsMarkerLine(marker: string -> Option<string>, content: string, m: MarkerMatch) {
    m.index <= m.end <= |content|
    && (m.index == 0 || IsLineTerminator(content[m.index - 1]))
    && (m.end == |content| || IsLineTerminator(content[m.end]))
    && NoLineTerminator(content[m.index..m.end])
    && marker(content[m.index..m.end]) == Some(m.path)
  }

  /** Every match is a marker line. */
  lemma {:induction false} LineMarkerIsMarkerLine(marker: string -> Option<string>, content: string, from: nat, j: nat)
    requires from <= |content| && (from == 0 || IsLineTerminator(content[from - 1]))
    requires j < |LineMarkers(marker, content, from)|
    ensures IsMarkerLine(marker, content, LineMarkers(marker, content, from)[j])
    decreases |content| - from, 1
  {
    var e := LineEnd(content, from);
    if marker(content[from..e]).Some? && j == 0 {
      MarkerLineAt(marker, content, from);
    } else {
      LaterMarkerIsMarkerLine(marker, content, from, j);
    }
  }

  lemma {:induction false} LaterMarkerIsMarkerLine(marker: string -> Option<string>, content: string, from: nat, j: nat)
    requires from <= |content| && j < |LineMarkers(marker, content, from)|
    requires var e := LineEnd(content, from); !(marker(content[from..e]).Some? && j == 0)
    ensures IsMarkerLine(marker, content, LineMarkers(marker, content, from)[j])
    decreases |content| - from, 0
  {
    var e := LineEnd(content, from);
    var k := LineMarkersShift(marker, content, from, j);
    LineMarkerIsMarkerLine(marker, content, e + 1, k);
  }

  /** Past the first line, the matches are those of the next line on. */
  lemma LineMarkersShift(marker: string -> Option<string>, content: string, from: nat, j: nat) returns (k: nat)
    requires from <= |content| && j < |LineMarkers(marker, content, from)|
    requires var e := LineEnd(content, from); !(marker(content[from..e]).Some? && j == 0)
    ensures var e := LineEnd(content, from);
      e < |content| && k < |LineMarkers(marker, content, e + 1)|
      && LineMarkers(marker, content, from)[j] == LineMarkers(marker, content, e + 1)[k]
  {
    var e := LineEnd(content, from);
    k := if marker(content[from..e]).Some? then j - 1 else j;
  }

  /** The line starting at `from`, when it is a marker, is a marker line. */
  lemma MarkerLineAt(marker: string -> Option<string>, content: string, from: nat)
    requires from <= |content| && (from == 0 || IsLineTerminator(content[from - 1]))
    requires marker(content[from..LineEnd(content, from)]).Some?
    ensures var e := LineEnd(content, from);
      LineMarkers(marker, content, from)[0] == MarkerMatch(from, e, marker(content[from..e]).value)
      && IsMarkerLine(marker, content, LineMarkers(marker, content, from)[0])
  {
  }

  /** The matches come in order and do not overlap. */
  lemma {:induction false} LineMarkersOrdered(marker: string -> Option<string>, content: string, from: nat)
    requires from <= |content|
    ensures Ordered(LineMarkers(marker, content, from), content)
    decreases |content| - from
  {
    var e := LineEnd(content, from);
    if e < |content| {
      LineMarkersOrdered(marker, content, e + 1);
      var rest := LineMarkers(marker, content, e + 1);
      var ms := LineMarkers(marker, content, from);
      if marker(content[from..e]).Some? {
        assert ms == [MarkerMatch(from, e, marker(content[from..e]).value)] + rest;
        forall j, j' | 0 <= j < j' < |ms| ensures ms[j].end <= ms[j'].index {
          assert ms[j'] == rest[j' - 1];
          if j > 0 {
            assert ms[j] == rest[j - 1];
          }
        }
      }
    }
  }

  // ---------------------------------------------------------------------------------
  // The loop as written

  /** `s.slice(a, b)` for indices that are not negative: both are cut to the length, and a
    * start at or after the end gives the empty string. */
  function Slice(s: string, a: nat, b: nat): (r: string)
    ensures a <= b <= |s| ==> r == s[a..b]
    ensures b <= a ==> r == ""
    ensures |r| <= |s|
  {
    var a' := if a < |s| then a else |s|;
    var b' := if b < |s| then b else |s|;
    if a' < b' then s[a'..b'] else ""
  }

  /* The functions of the loop take `String.prototype.trim` as the parameter `tidy`, which
   * `Action` sets to `Trim`: what the loop does with the markers does not depend on it. */

  /** The state of the loop: the `files` object and `lastIndex`. */
  datatype Loop = Loop(files: map<string, string>, lastIndex: nat)

  /** One pass of the loop body after the first `exec` returned match `ms[li]`: the second
    * `exec` takes the next match (or returns `null` and resets `lastIndex`), and the file
    * runs from the end of the first match to the start of the second (or to the end). */
  function Body(tidy: string -> string, content: string, ms: seq<MarkerMatch>, files: map<string, string>, li: nat): Loop
    requires li < |ms|
  {
    var start := ms[li].end;
    if li + 1 < |ms| then Loop(files[ms[li].path := tidy(Slice(content, start, ms[li + 1].index))], li + 2)
    else Loop(files[ms[li].path := tidy(Slice(content, start, |content|))], 0)
  }

  /** The loop run for at most `fuel` passes: `Some(files)` when the first `exec` of a pass
    * returns `null`, `None` when the passes run out first. */
  function Iterate(tidy: string -> string, content: string, ms: seq<MarkerMatch>, st: Loop, fuel: nat): Option<map<string, string>>
    requires st.lastIndex <= |ms|
    decreases fuel
  {
    if fuel == 0 then None
    else if st.lastIndex == |ms| then Some(st.files)
    else
      var next := Body(tidy, content, ms, st.files, st.lastIndex);
      Iterate(tidy, content, ms, next, fuel - 1)
  }

  /** The `while` loop of `action` over the matches `ms`, stopped after `fuel` passes. */
  method MarkerLoop(tidy: string -> string, content: string, ms: seq<MarkerMatch>, fuel: nat) returns (r: Option<map<string, string>>)
    ensures r == Iterate(tidy, content, ms, Loop(map[], 0), fuel)
  {
    var files: map<string, string> := map[];
    var lastIndex: nat := 0;
    var passes := 0;
    while passes < fuel
      invariant passes <= fuel && lastIndex <= |ms|
      invariant Iterate(tidy, content, ms, Loop(files, lastIndex), fuel - passes) == Iterate(tidy, content, ms, Loop(map[], 0), fuel)
    {
      if lastIndex == |ms| {
        lastIndex := 0;
        return Some(files);
      }
      ghost var before := Loop(files, lastIndex);
      var matchFile := ms[lastIndex];
      lastIndex := lastIndex + 1;
      var path := matchFile.path;
      var start := matchFile.end;
      var end: nat;
      if lastIndex < |ms| {
        end := ms[lastIndex].index;
        lastIndex := lastIndex + 1;
      } else {
        end := |content|;
        lastIndex := 0;
      }
      files := files[path := tidy(Slice(content, start, end))];
      assert Body(tidy, content, ms, before.files, before.lastIndex) == Loop(files, lastIndex);
      passes := passes + 1;
    }
    return None;
  }

  /** `action(context)` with the loop stopped after `fuel` passes. */
  method Action(prompt: string, fuel: nat) returns (r: Result<Option<map<string, string>>>)
    ensures ContentOf(prompt).Err? ==> r == Err(FormatError)
    ensures ContentOf(prompt).Ok? ==>
      var content := ContentOf(prompt).value;
      r == Ok(Iterate(Trim, content, LineMarkers(MarkerPath, content, 0), Loop(map[], 0), fuel))
  {
    var found := ContentOf(prompt);
    if found.Err? {
      return Err(FormatError);
    }
    var content := found.value;
    var files := MarkerLoop(Trim, content, LineMarkers(MarkerPath, content, 0), fuel);
    return Ok(files);
  }

  /** The file of the pair of matches `ms[j]`, `ms[j + 1]`. */
  function PairFile(tidy: string -> string, content: string, ms: seq<MarkerMatch>, j: nat): string
    requires j + 1 < |ms|
  {
    tidy(Slice(content, ms[j].end, ms[j + 1].index))
  }

  /** The object after the passes that took the matches before `i` two at a time: the file
    * of each pair is the text from its first marker to its second, under the first marker's
    * path. */
  function Pairs(tidy: string -> string, content: string, ms: seq<MarkerMatch>, i: nat): map<string, string>
    requires i <= |ms|
  {
    if i < 2 then map[]
    else Pairs(tidy, content, ms, i - 2)[ms[i - 2].path := PairFile(tidy, content, ms, i - 2)]
  }

  lemma {:induction false} IteratePairs(tidy: string -> string, content: string, ms: seq<MarkerMatch>, li: nat, half: nat, fuel: nat)
    requires |ms| == li + half + half && fuel > half
    ensures Iterate(tidy, content, ms, Loop(Pairs(tidy, content, ms, li), li), fuel) == Some(Pairs(tidy, content, ms, |ms|))
    decreases half
  {
    if half == 0 {
      AllPairsDone(tidy, content, ms, fuel);
    } else {
      IteratePairs(tidy, content, ms, li + 2, half - 1, fuel - 1);
      PairStep(tidy, content, ms, li, fuel);
    }
  }

  /** Once every pair is taken, the next pass stops. */
  lemma AllPairsDone(tidy: string -> string, content: string, ms: seq<MarkerMatch>, fuel: nat)
    requires fuel > 0
    ensures Iterate(tidy, content, ms, Loop(Pairs(tidy, content, ms, |ms|), |ms|), fuel) == Some(Pairs(tidy, content, ms, |ms|))
  {
  }

  /** One pass over a pair adds the pair's file. */
  lemma PairStep(tidy: string -> string, content: string, ms: seq<MarkerMatch>, li: nat, fuel: nat)
    requires li + 2 <= |ms| && fuel > 0
    ensures Iterate(tidy, content, ms, Loop(Pairs(tidy, content, ms, li), li), fuel)
      == Iterate(tidy, content, ms, Loop(Pairs(tidy, content, ms, li + 2), li + 2), fuel - 1)
  {
    var files := Pairs(tidy, content, ms, li);
    assert Pairs(tidy, content, ms, li + 2) == files[ms[li].path := PairFile(tidy, content, ms, li)];
    assert Body(tidy, content, ms, files, li) == Loop(files[ms[li].path := PairFile(tidy, content, ms, li)], li + 2);
  }

  /** With an even number of markers the loop stops after one pass per pair, and the object
    * holds one entry per pair: markers 1, 3, 5, ... name the files, and markers 2, 4, 6, ...
    * only end them. */
  lemma EvenMarkersPair(tidy: string -> string, content: string, ms: seq<MarkerMatch>, fuel: nat)
    requires |ms| % 2 == 0 && fuel > |ms| / 2
    ensures Iterate(tidy, content, ms, Loop(map[], 0), fuel) == Some(Pairs(tidy, content, ms, |ms|))
  {
    IteratePairs(tidy, content, ms, 0, |ms| / 2, fuel);
  }

  /** The keys of the object are the paths of the odd-numbered markers (at even indices). */
  lemma {:induction false} PairsKeys(tidy: string -> string, content: string, ms: seq<MarkerMatch>, i: nat)
    requires i <= |ms| && i % 2 == 0
    ensures forall k :: k in Pairs(tidy, content, ms, i) <==> exists j :: 0 <= j < i && j % 2 == 0 && ms[j].path == k
    decreases i
  {
    if i >= 2 {
      PairsKeys(tidy, content, ms, i - 2);
      var last := ms[i - 2].path;
      forall k ensures k in Pairs(tidy, content, ms, i) <==> exists j :: 0 <= j < i && j % 2 == 0 && ms[j].path == k {
        if k == last {
          assert ms[i - 2].path == k;
        } else if k in Pairs(tidy, content, ms, i) {
          assert k in Pairs(tidy, content, ms, i - 2);
          var j :| 0 <= j < i - 2 && j % 2 == 0 && ms[j].path == k;
          assert 0 <= j < i;
        }
      }
    }
  }

  /** A repeated path keeps the file of its last pair. */
  lemma {:induction false} PairsLastWins(tidy: string -> string, content: string, ms: seq<MarkerMatch>, i: nat, j: nat)
    requires j + 2 <= i <= |ms| && (i - j) % 2 == 0
    requires forall j' :: j < j' < i && (j' - j) % 2 == 0 ==> ms[j'].path != ms[j].path
    ensures ms[j].path in Pairs(tidy, content, ms, i)
    ensures Pairs(tidy, content, ms, i)[ms[j].path] == PairFile(tidy, content, ms, j)
    decreases i
  {
    if j + 2 < i {
      PairsLastWins(tidy, content, ms, i - 2, j);
      assert ms[i - 2].path != ms[j].path;
    }
  }

  /** A text without markers gives `{}`. */
  lemma NoMarkersNoFiles(tidy: string -> string, content: string, fuel: nat)
    requires fuel > 0
    ensures Iterate(tidy, content, [], Loop(map[], 0), fuel) == Some(map[])
  {
  }

  /** Every second `exec` of the last pass returns `null` when the number of markers is odd, so
    * `lastIndex` falls back to 0 and the loop starts over with the first marker: however
    * many passes it is given, it never stops. */
  lemma {:induction false} OddMarkersKeepGoing(tidy: string -> string, content: string, ms: seq<MarkerMatch>, st: Loop, fuel: nat)
    requires |ms| % 2 == 1
    requires st.lastIndex % 2 == 0 && st.lastIndex < |ms|
    ensures Iterate(tidy, content, ms, st, fuel) == None
    decreases fuel
  {
    if fuel > 0 {
      OddMarkersKeepGoing(tidy, content, ms, Body(tidy, content, ms, st.files, st.lastIndex), fuel - 1);
    }
  }

  /** With an odd number of markers the loop never stops; a text that is one marker line
    * (`OneLineMarker`) is one such text. */
  lemma OddMarkersNeverStop(tidy: string -> string, content: string, ms: seq<MarkerMatch>, fuel: nat)
    requires |ms| % 2 == 1
    ensures Iterate(tidy, content, ms, Loop(map[], 0), fuel) == None
  {
    OddMarkersKeepGoing(tidy, content, ms, Loop(map[], 0), fuel);
  }

  /** A text that is one marker line holds one match. */
  lemma OneLineMarker(marker: string -> Option<string>, content: string, path: string)
    requires NoLineTerminator(content) && marker(content) == Some(path)
    ensures LineMarkers(marker, content, 0) == [MarkerMatch(0, |content|, path)]
  {
    assert content[0..] == content;
    LineEndWhole(content, 0);
    assert content[0..|content|] == content;
  }

  /** A text with no line terminator from `i` on is one line. */
  lemma {:induction false} LineEndWhole(s: string, i: nat)
    requires i <= |s| && NoLineTerminator(s[i..])
    ensures LineEnd(s, i) == |s|
    decreases |s| - i
  {
    if i < |s| {
      assert s[i] == s[i..][0];
      assert s[i + 1..] == s[i..][1..];
      LineEndWhole(s, i + 1);
    }
  }

  // ---------------------------------------------------------------------------------
  // The loop as evidently intended

  /** The file of match `j`: the text up to the next match, or up to the end. */
  function FileOf(tidy: string -> string, content: string, ms: seq<MarkerMatch>, j: nat): string
    requires j < |ms|
  {
    tidy(Slice(content, ms[j].end, if j + 1 < |ms| then ms[j + 1].index else |content|))
  }

  /** Every marker names a file that runs to the next marker: the second `exec` only looks
    * ahead, and the loop stops after the last marker. */
  function IntendedFiles(tidy: string -> string, content: string, ms: seq<MarkerMatch>, n: nat): map<string, string>
    requires n <= |ms|
  {
    if n == 0 then map[]
    else IntendedFiles(tidy, content, ms, n - 1)[ms[n - 1].path := FileOf(tidy, content, ms, n - 1)]
  }

  /** Every marker's path is a key, and a path holds the file of its last marker. */
  lemma {:induction false} IntendedFilesComplete(tidy: string -> string, content: string, ms: seq<MarkerMatch>, n: nat, j: nat)
    requires j < n <= |ms|
    ensures ms[j].path in IntendedFiles(tidy, content, ms, n)
    ensures (forall j' :: j < j' < n ==> ms[j'].path != ms[j].path) ==>
      IntendedFiles(tidy, content, ms, n)[ms[j].path] == FileOf(tidy, content, ms, j)
  {
    if j < n - 1 {
      IntendedFilesComplete(tidy, content, ms, n - 1, j);
    }
  }

  /** Every key of the intended object is the path of some marker. */
  lemma {:induction false} IntendedFilesKeys(tidy: string -> string, content: string, ms: seq<MarkerMatch>, n: nat)
    requires n <= |ms|
    ensures forall k :: k in IntendedFiles(tidy, content, ms, n) ==> exists j :: 0 <= j < n && ms[j].path == k
  {
    if n > 0 {
      IntendedFilesKeys(tidy, content, ms, n - 1);
    }
  }

  /** The intended loop: the first `exec` of each pass is the look-ahead of the pass before. */
  method IntendedLoop(tidy: string -> string, content: string, ms: seq<MarkerMatch>) returns (files: map<string, string>)
    ensures files == IntendedFiles(tidy, content, ms, |ms|)
  {
    files := map[];
    var k := 0;
    while k < |ms|
      invariant k <= |ms| && files == IntendedFiles(tidy, content, ms, k)
    {
      var end := if k + 1 < |ms| then ms[k + 1].index else |content|;
      files := files[ms[k].path := tidy(Slice(content, ms[k].end, end))];
      k := k + 1;
    }
  }

  /** `action(context)` with the intended loop. */
  method IntendedAction(prompt: string) returns (r: Result<map<string, string>>)
    ensures ContentOf(prompt).Err? ==> r == Err(FormatError)
    ensures ContentOf(prompt).Ok? ==>
      var content := ContentOf(prompt).value;
      r == Ok(IntendedFiles(Trim, content, LineMarkers(MarkerPath, content, 0), |LineMarkers(MarkerPath, content, 0)|))
  {
    var found := ContentOf(prompt);
    if found.Err? {
      return Err(FormatError);
    }
    var content := found.value;
    var files := IntendedLoop(Trim, content, LineMarkers(MarkerPath, content, 0));
    return Ok(files);
  }

  /** With two markers the loop as written keeps the first file and drops the second, which
    * the intended loop keeps. */
  lemma SecondFileDropped(tidy: string -> string, content: string, a: MarkerMatch, b: MarkerMatch)
    requires a.path != b.path
    ensures Iterate(tidy, content, [a, b], Loop(map[], 0), 2) == Some(map[a.path := tidy(Slice(content, a.end, b.index))])
    ensures b.path !in Iterate(tidy, content, [a, b], Loop(map[], 0), 2).value
    ensures b.path in IntendedFiles(tidy, content, [a, b], 2)
  {
    EvenMarkersPair(tidy, content, [a, b], 2);
    assert Pairs(tidy, content, [a, b], 2) == map[a.path := PairFile(tidy, content, [a, b], 0)];
    IntendedFilesComplete(tidy, content, [a, b], 2, 1);
  }
}
