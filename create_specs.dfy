/** `src/.AchillesSkills/create-src-specs/index.mjs`: cutting the model's markdown answer into
  * files at `<!-- FILE: path -->` marker lines, cleaning each path, and the checks `action`
  * makes before and after asking the model. Reading `docs/specs`, the prompt template and
  * the writes themselves are effects; the writes are returned as a list. */
module CreateSrcSpecs {
  import opened Wrappers
  import opened Text
  import opened Seqs

  // ---------------------------------------------------------------------------------
  // Lines

  /** `line` without one trailing carriage return. */
  function DropCR(line: string): (r: string)
    ensures r == line || r + "\r" == line
  {
    if line != [] && line[|line| - 1] == '\r' then line[..|line| - 1] else line
  }

  /** `markdown.split(/\r?\n/)`: the pieces between the `\n` characters, each but the last
    * without the `\r` in front of its `\n`. */
  function SplitLines(markdown: string): (r: seq<string>)
    ensures |r| == |Split(markdown, '\n')| >= 1
  {
    var pieces := Split(markdown, '\n');
    seq(|pieces|, i requires 0 <= i < |pieces| => if i + 1 < |pieces| then DropCR(pieces[i]) else pieces[i])
  }

  /** The lines of a text, each but the last followed by `\r`. */
  function WithCR(lines: seq<string>): (r: seq<string>)
    ensures |r| == |lines|
  {
    seq(|lines|, i requires 0 <= i < |lines| => if i + 1 < |lines| then lines[i] + "\r" else lines[i])
  }

  lemma {:induction false} JoinCRLF(lines: seq<string>)
    requires |lines| >= 1
    ensures Join(lines, "\r\n") == Join(WithCR(lines), "\n")
    decreases |lines|
  {
    if |lines| > 1 {
      JoinCRLF(lines[1..]);
      assert WithCR(lines)[1..] == WithCR(lines[1..]);
      assert lines[0] + "\r\n" + Join(lines[1..], "\r\n") == (lines[0] + "\r") + "\n" + Join(lines[1..], "\r\n");
    }
  }

  lemma WithCRNoNewline(lines: seq<string>)
    requires forall i :: 0 <= i < |lines| ==> '\n' !in lines[i]
    ensures forall i :: 0 <= i < |lines| ==> '\n' !in WithCR(lines)[i]
  {
    forall i | 0 <= i < |lines| ensures '\n' !in WithCR(lines)[i] {
      if i + 1 < |lines| {
        assert WithCR(lines)[i] == lines[i] + "\r";
      }
    }
  }

  lemma DropCRWithCR(lines: seq<string>)
    ensures forall i :: 0 <= i < |lines| ==>
      (if i + 1 < |lines| then DropCR(WithCR(lines)[i]) else WithCR(lines)[i]) == lines[i]
  {
    forall i | 0 <= i < |lines| && i + 1 < |lines| ensures DropCR(WithCR(lines)[i]) == lines[i] {
      assert WithCR(lines)[i] == lines[i] + "\r";
      assert (lines[i] + "\r")[..|lines[i]|] == lines[i];
    }
  }

  /** Lines written with `\r\n` endings split back into the same lines. */
  lemma SplitLinesCRLF(lines: seq<string>)
    requires |lines| >= 1 && forall i :: 0 <= i < |lines| ==> '\n' !in lines[i]
    ensures SplitLines(Join(lines, "\r\n")) == lines
  {
    JoinCRLF(lines);
    WithCRNoNewline(lines);
    SplitJoin(WithCR(lines), '\n');
    DropCRWithCR(lines);
  }

  /** Lines written with `\n` endings split back into the same lines, unless a line before
    * the last ends in `\r` (which the `\n` after it turns into a `\r\n` ending). */
  lemma SplitLinesLF(lines: seq<string>)
    requires |lines| >= 1 && forall i :: 0 <= i < |lines| ==> '\n' !in lines[i]
    requires forall i :: 0 <= i < |lines| - 1 ==> lines[i] == [] || lines[i][|lines[i]| - 1] != '\r'
    ensures SplitLines(Join(lines, "\n")) == lines
  {
    SplitJoin(lines, '\n');
  }

  // ---------------------------------------------------------------------------------
  // Markers

  /** What follows `FILE:` in a line `<!--`, whitespace, `FILE:`, ..., `-->`. */
  function MarkerTail(line: string): (r: Option<string>)
  {
    if |line| < 7 || line[..4] != "<!--" || line[|line| - 3..] != "-->" then None
    else
      var rest := TrimStart(line[4..|line| - 3]);
      if !StartsWith(rest, "FILE:") then None else Some(rest[5..])
  }

  /** Every character is a line terminator: `(.+?)` finds no character to capture. */
  predicate OnlyLineTerminators(s: string)
    decreases |s|
  {
    s == [] || (IsLineTerminator(s[0]) && OnlyLineTerminators(s[1..]))
  }

  /** `(.+?)\s*` against what follows `FILE:\s*`, then `.trim()`: the path, blank when the
    * capture is only whitespace. `.` does not cross a line terminator, so the path may not
    * hold one. */
  function TailPath(tail: string): (r: Option<string>)
    ensures r.Some? ==> IsTrimmed(r.value) && NoLineTerminator(r.value)
  {
    var path := Trim(tail);
    if path == "" then
      if OnlyLineTerminators(tail) then None else Some("")
    else if NoLineTerminator(path) then Some(path)
    else None
  }

  /** `line.match(/^<!--\s*FILE:\s*(.+?)\s*-->$/)` and then `match[1].trim()`: the path of a
    * marker line, `Some("")` for a marker whose path is blank, `None` for any other line. */
  function MarkerPath(line: string): (r: Option<string>)
    ensures r.Some? ==> IsTrimmed(r.value) && NoLineTerminator(r.value)
  {
    match MarkerTail(line)
    case None => None
    case Some(tail) => TailPath(tail)
  }

  /** Only a line that opens with `<!--` and closes with `-->` is a marker. */
  lemma MarkerPathFraming(line: string)
    ensures MarkerPath(line).Some? ==> StartsWith(line, "<!--") && EndsWith(line, "-->")
  {
  }

  lemma MarkerTailOf(w1: string, tail: string)
    requires AllSpace(w1)
    ensures MarkerTail("<!--" + w1 + "FILE:" + tail + "-->") == Some(tail)
  {
    var inner := "FILE:" + tail;
    var line := "<!--" + (w1 + inner) + "-->";
    assert line == "<!--" + w1 + "FILE:" + tail + "-->";
    Framed(line, "<!--", w1 + inner, "-->");
    TrimStartSpacePrefix(w1, inner);
    TrimStartAppend("FILE:", tail);
    assert inner[..5] == "FILE:" && inner[5..] == tail;
  }

  /** The parts of a text framed by an opening and a closing string. */
  lemma Framed(line: string, a: string, mid: string, b: string)
    requires line == a + mid + b
    ensures |line| == |a| + |mid| + |b|
    ensures line[..|a|] == a && line[|line| - |b|..] == b && line[|a|..|line| - |b|] == mid
  {
  }

  /** A marker line as the model is asked to write it, with any whitespace around the path,
    * reads back as that path. */
  lemma MarkerPathOfMarker(w1: string, w2: string, path: string, w3: string)
    requires AllSpace(w1) && AllSpace(w2) && AllSpace(w3)
    requires path != "" && IsTrimmed(path) && NoLineTerminator(path)
    ensures MarkerPath("<!--" + w1 + "FILE:" + w2 + path + w3 + "-->") == Some(path)
  {
    var tail := w2 + path + w3;
    assert "<!--" + w1 + "FILE:" + w2 + path + w3 + "-->" == "<!--" + w1 + "FILE:" + tail + "-->";
    MarkerTailOf(w1, tail);
    TrimOfTrimmedPadding(w2, path, w3);
  }

  /** No line of the given lines is a marker. */
  predicate NoMarker(lines: seq<string>) {
    forall i :: 0 <= i < |lines| ==> MarkerPath(lines[i]).None?
  }

  // ---------------------------------------------------------------------------------
  // parseFilesFromMarkdown

  /** A line as the loop sees it: a marker with its path, or any other line. */
  datatype Line = MarkerLine(path: string) | TextLine(text: string)

  function Classify(line: string): (r: Line)
    ensures r.TextLine? ==> r.text == line
    ensures r.MarkerLine? ==> IsTrimmed(r.path) && NoLineTerminator(r.path)
  {
    match MarkerPath(line)
    case Some(p) => MarkerLine(p)
    case None => TextLine(line)
  }

  function ClassifyAll(lines: seq<string>): (r: seq<Line>)
    ensures |r| == |lines| && forall i :: 0 <= i < |lines| ==> r[i] == Classify(lines[i])
  {
    seq(|lines|, i requires 0 <= i < |lines| => Classify(lines[i]))
  }

  lemma ClassifyAppend(a: seq<string>, b: seq<string>)
    ensures ClassifyAll(a + b) == ClassifyAll(a) + ClassifyAll(b)
  {
  }

  datatype SpecFile = SpecFile(path: string, content: string)

  /** The state of the loop: `files`, `currentPath` (`None` for `null`) and `currentLines`. */
  datatype Scan = Scan(files: seq<SpecFile>, current: Option<string>, lines: seq<string>)

  const Start: Scan := Scan([], None, [])

  /** The file pushed for `currentPath` and `currentLines`: one when the path is truthy (a
    * non-empty string), holding the lines joined by `\n` and trimmed. */
  function Pending(current: Option<string>, lines: seq<string>): seq<SpecFile> {
    if current.Some? && current.value != "" then [SpecFile(current.value, Trim(Join(lines, "\n")))] else []
  }

  /** `files` after the pending file is pushed. */
  function Flush(st: Scan): seq<SpecFile> {
    st.files + Pending(st.current, st.lines)
  }

  /** One line of the loop: a marker pushes the pending file and opens a new one; any other
    * line joins the open file, or is dropped before the first marker. */
  function Step(st: Scan, line: Line): Scan {
    match line
    case MarkerLine(p) => Scan(Flush(st), Some(p), [])
    case TextLine(t) => if st.current.Some? then st.(lines := st.lines + [t]) else st
  }

  function Run(st: Scan, lines: seq<Line>): Scan
    decreases |lines|
  {
    if lines == [] then st else Run(Step(st, lines[0]), lines[1..])
  }

  /** The files of a list of lines. */
  function FilesOfLines(lines: seq<string>): seq<SpecFile> {
    Flush(Run(Start, ClassifyAll(lines)))
  }

  /** `parseFilesFromMarkdown(markdown)` */
  function FilesOf(markdown: string): seq<SpecFile> {
    FilesOfLines(SplitLines(markdown))
  }

  /** The loop of `parseFilesFromMarkdown`, with its three variables. */
  method ParseFilesFromMarkdown(markdown: string) returns (files: seq<SpecFile>)
    ensures files == FilesOf(markdown)
  {
    files := [];
    var lines := SplitLines(markdown);
    ghost var classified := ClassifyAll(lines);
    var currentPath: Option<string> := None;
    var currentLines: seq<string> := [];
    for k := 0 to |lines|
      invariant Run(Scan(files, currentPath, currentLines), classified[k..]) == Run(Start, classified)
    {
      assert classified[k..][1..] == classified[k + 1..] && classified[k..][0] == Classify(lines[k]);
      var line := lines[k];
      ghost var before := Scan(files, currentPath, currentLines);
      var found := MarkerPath(line);
      if found.Some? {
        if currentPath.Some? && currentPath.value != "" {
          files := files + [SpecFile(currentPath.value, Trim(Join(currentLines, "\n")))];
        }
        currentPath := Some(found.value);
        currentLines := [];
      } else if currentPath.Some? {
        currentLines := currentLines + [line];
      }
      assert Scan(files, currentPath, currentLines) == Step(before, Classify(line));
    }
    if currentPath.Some? && currentPath.value != "" {
      files := files + [SpecFile(currentPath.value, Trim(Join(currentLines, "\n")))];
    }
  }

  /** Lines that are not markers leave the state alone before the first marker. */
  lemma {:induction false} RunSkipsPreamble(pre: seq<string>, rest: seq<Line>)
    requires NoMarker(pre)
    ensures Run(Start, ClassifyAll(pre) + rest) == Run(Start, rest)
    decreases |pre|
  {
    var c := ClassifyAll(pre);
    if pre != [] {
      assert (c + rest)[0] == TextLine(pre[0]);
      assert (c + rest)[1..] == ClassifyAll(pre[1..]) + rest;
      RunSkipsPreamble(pre[1..], rest);
    } else {
      assert c + rest == rest;
    }
  }

  /** Lines before the first marker are dropped. */
  lemma PreambleDropped(pre: seq<string>, rest: seq<string>)
    requires NoMarker(pre)
    ensures FilesOfLines(pre + rest) == FilesOfLines(rest)
  {
    ClassifyAppend(pre, rest);
    RunSkipsPreamble(pre, ClassifyAll(rest));
  }

  /** Text without a marker line gives no file. */
  lemma NoMarkerNoFiles(lines: seq<string>)
    requires NoMarker(lines)
    ensures FilesOfLines(lines) == []
  {
    RunSkipsPreamble(lines, []);
    assert ClassifyAll(lines) + [] == ClassifyAll(lines);
  }

  /** Lines that are not markers join the open file. */
  lemma {:induction false} RunCollectsTexts(files: seq<SpecFile>, p: string, acc: seq<string>, body: seq<Line>, texts: seq<string>, rest: seq<Line>)
    requires |texts| == |body| && forall i :: 0 <= i < |body| ==> body[i] == TextLine(texts[i])
    ensures Run(Scan(files, Some(p), acc), body + rest) == Run(Scan(files, Some(p), acc + texts), rest)
    decreases |body|
  {
    if body != [] {
      assert (body + rest)[0] == TextLine(texts[0]);
      assert (body + rest)[1..] == body[1..] + rest;
      assert acc + [texts[0]] + texts[1..] == acc + texts;
      RunCollectsTexts(files, p, acc + [texts[0]], body[1..], texts[1..], rest);
    } else {
      assert body + rest == rest;
      assert acc + texts == acc;
    }
  }

  /** Files already pushed stay in front of everything the loop pushes later. */
  lemma {:induction false} RunShift(pre: seq<SpecFile>, st: Scan, rest: seq<Line>)
    ensures var r := Run(st, rest); Run(st.(files := pre + st.files), rest) == r.(files := pre + r.files)
    decreases |rest|
  {
    if rest != [] {
      var st' := st.(files := pre + st.files);
      assert Flush(st') == pre + Flush(st);
      assert Step(st', rest[0]) == Step(st, rest[0]).(files := pre + Step(st, rest[0]).files);
      RunShift(pre, Step(st, rest[0]), rest[1..]);
    }
  }

  /** An open file is pushed at the next marker, before everything that marker starts. */
  lemma RunClosesFile(p: string, body: seq<string>, rest: seq<Line>)
    requires rest == [] || rest[0].MarkerLine?
    ensures Flush(Run(Scan([], Some(p), body), rest)) == Pending(Some(p), body) + Flush(Run(Start, rest))
  {
    var open := Scan([], Some(p), body);
    var pending := Pending(Some(p), body);
    if rest != [] {
      var next := Scan([], Some(rest[0].path), []);
      assert Flush(open) == pending;
      assert Step(open, rest[0]) == Scan(pending, Some(rest[0].path), []);
      assert Run(open, rest) == Run(Scan(pending, Some(rest[0].path), []), rest[1..]);
      assert Flush(Start) == [];
      assert Step(Start, rest[0]) == next;
      assert Run(Start, rest) == Run(next, rest[1..]);
      RunShift(pending, next, rest[1..]);
      assert next.(files := pending + next.files) == Scan(pending, Some(rest[0].path), []);
    }
  }

  /** The same on classified lines. */
  lemma RunChunk(p: string, body: seq<Line>, texts: seq<string>, tail: seq<Line>)
    requires |texts| == |body| && forall i :: 0 <= i < |body| ==> body[i] == TextLine(texts[i])
    requires tail == [] || tail[0].MarkerLine?
    ensures Flush(Run(Start, [MarkerLine(p)] + body + tail)) == Pending(Some(p), texts) + Flush(Run(Start, tail))
  {
    var c := [MarkerLine(p)] + body + tail;
    assert c[0] == MarkerLine(p) && c[1..] == body + tail;
    assert Step(Start, MarkerLine(p)) == Scan([], Some(p), []);
    assert Run(Start, c) == Run(Scan([], Some(p), []), body + tail);
    RunCollectsTexts([], p, [], body, texts, tail);
    assert [] + texts == texts;
    RunClosesFile(p, texts, tail);
  }

  /** A marker, the lines up to the next marker (or the end), and the rest: the marker's file
    * (none for a blank path) comes first, then the files of the rest, in marker order. */
  lemma MarkerChunk(marker: string, p: string, body: seq<string>, rest: seq<string>)
    requires MarkerPath(marker) == Some(p) && NoMarker(body)
    requires rest == [] || MarkerPath(rest[0]).Some?
    ensures FilesOfLines([marker] + body + rest) == Pending(Some(p), body) + FilesOfLines(rest)
  {
    var tail := ClassifyAll(rest);
    var cb := ClassifyAll(body);
    ClassifyAppend([marker] + body, rest);
    ClassifyAppend([marker], body);
    assert ClassifyAll([marker]) == [MarkerLine(p)];
    assert forall i :: 0 <= i < |cb| ==> cb[i] == TextLine(body[i]);
    RunChunk(p, cb, body, tail);
  }

  /** Every path is non-empty, trimmed and on one line, and every content is trimmed. */
  predicate WellFormed(files: seq<SpecFile>) {
    forall i :: 0 <= i < |files| ==>
      files[i].path != "" && IsTrimmed(files[i].path) && NoLineTerminator(files[i].path) && IsTrimmed(files[i].content)
  }

  predicate GoodScan(st: Scan) {
    WellFormed(st.files) && (st.current.Some? ==> IsTrimmed(st.current.value) && NoLineTerminator(st.current.value))
  }

  lemma FlushKeepsGood(st: Scan)
    requires GoodScan(st)
    ensures WellFormed(Flush(st))
  {
    var fs := Flush(st);
    forall i | 0 <= i < |fs|
      ensures fs[i].path != "" && IsTrimmed(fs[i].path) && NoLineTerminator(fs[i].path) && IsTrimmed(fs[i].content)
    {
      if i < |st.files| {
        assert fs[i] == st.files[i];
      }
    }
  }

  lemma StepKeepsGood(st: Scan, line: Line)
    requires GoodScan(st)
    requires line.MarkerLine? ==> IsTrimmed(line.path) && NoLineTerminator(line.path)
    ensures GoodScan(Step(st, line))
  {
    if line.MarkerLine? {
      FlushKeepsGood(st);
    }
  }

  lemma {:induction false} RunKeepsGood(st: Scan, lines: seq<string>)
    requires GoodScan(st)
    ensures GoodScan(Run(st, ClassifyAll(lines)))
    decreases |lines|
  {
    if lines != [] {
      var c := ClassifyAll(lines);
      StepKeepsGood(st, c[0]);
      assert c[1..] == ClassifyAll(lines[1..]);
      RunKeepsGood(Step(st, c[0]), lines[1..]);
    }
  }

  /** The files of any text are well formed. */
  lemma FilesWellFormed(markdown: string)
    ensures WellFormed(FilesOf(markdown))
  {
    RunKeepsGood(Start, SplitLines(markdown));
    FlushKeepsGood(Run(Start, ClassifyAll(SplitLines(markdown))));
  }

  // ---------------------------------------------------------------------------------
  // The path sanitiser

  predicate IsSlash(c: char) { c == '/' || c == '\\' }

  /** `path.replace(/^[/\\]+/, '')` */
  function StripLeadingSlashes(s: string): (r: string)
    ensures |r| <= |s| && r == s[|s| - |r|..]
    ensures r == [] || !IsSlash(r[0])
    ensures forall i :: 0 <= i < |s| - |r| ==> IsSlash(s[i])
  {
    if s != [] && IsSlash(s[0]) then StripLeadingSlashes(s[1..]) else s
  }

  /** `s` holds `..` at index `i`. */
  predicate DotDotAt(s: string, i: nat)
    requires i + 1 < |s|
  {
    s[i] == '.' && s[i + 1] == '.'
  }

  predicate NoDotDot(s: string) {
    forall i: nat :: i + 1 < |s| ==> !DotDotAt(s, i)
  }

  /** `s.replace(/\.\./g, '')`: the matches are taken from left to right without overlap. */
  function RemoveDotDot(s: string): (r: string)
    ensures |r| <= |s|
    ensures s != [] && s[0] != '.' ==> r != [] && r[0] == s[0]
    decreases |s|
  {
    if |s| >= 2 && s[0] == '.' && s[1] == '.' then RemoveDotDot(s[2..])
    else if s == [] then []
    else [s[0]] + RemoveDotDot(s[1..])
  }

  /** No `..` survives the replacement. */
  lemma {:induction false} RemoveDotDotLeavesNone(s: string)
    ensures NoDotDot(RemoveDotDot(s))
    decreases |s|
  {
    if |s| >= 2 && s[0] == '.' && s[1] == '.' {
      RemoveDotDotLeavesNone(s[2..]);
    } else if s != [] {
      RemoveDotDotLeavesNone(s[1..]);
      var t := RemoveDotDot(s[1..]);
      var r := [s[0]] + t;
      assert RemoveDotDot(s) == r;
      forall i: nat | i + 1 < |r|
        ensures !DotDotAt(r, i)
      {
        if i == 0 {
          assert s[0] == '.' ==> s[1..][0] != '.';
          assert r[1] == t[0];
        } else {
          assert !DotDotAt(t, i - 1);
        }
      }
    }
  }

  function IsNotDot(c: char): bool { c != '.' }

  /** Only dots are removed: the other characters stay, in their order. */
  lemma {:induction false} RemoveDotDotKeepsOthers(s: string)
    ensures Filter(RemoveDotDot(s), IsNotDot) == Filter(s, IsNotDot)
    decreases |s|
  {
    if |s| >= 2 && s[0] == '.' && s[1] == '.' {
      RemoveDotDotKeepsOthers(s[2..]);
      assert s == ".." + s[2..];
      FilterAppend("..", s[2..], IsNotDot);
      assert Filter("..", IsNotDot) == [];
    } else if s != [] {
      RemoveDotDotKeepsOthers(s[1..]);
      assert s == [s[0]] + s[1..];
      FilterAppend([s[0]], s[1..], IsNotDot);
      FilterAppend([s[0]], RemoveDotDot(s[1..]), IsNotDot);
    }
  }

  /** A string without `..` is left as it is. */
  lemma {:induction false} RemoveDotDotClean(s: string)
    requires NoDotDot(s)
    ensures RemoveDotDot(s) == s
    decreases |s|
  {
    if s != [] {
      forall i: nat | i + 1 < |s[1..]|
        ensures !DotDotAt(s[1..], i)
      {
        assert !DotDotAt(s, i + 1);
      }
      RemoveDotDotClean(s[1..]);
      if |s| >= 2 {
        assert !DotDotAt(s, 0);
      }
    }
  }

  /** The path written under `docs/specs/src/`: leading slashes stripped, then every `..`. */
  function SanitizePath(path: string): (r: string)
    ensures |r| <= |path|
  {
    RemoveDotDot(StripLeadingSlashes(path))
  }

  /** A string that does not start with a slash is not stripped. */
  lemma StripNoLeadingSlash(s: string)
    requires s == [] || !IsSlash(s[0])
    ensures StripLeadingSlashes(s) == s
  {}

  /** A path without leading slashes or `..` is kept as it is. */
  lemma SanitizeClean(path: string)
    ensures (path == [] || !IsSlash(path[0])) && NoDotDot(path) ==> SanitizePath(path) == path
  {
    if (path == [] || !IsSlash(path[0])) && NoDotDot(path) {
      StripNoLeadingSlash(path);
      RemoveDotDotClean(path);
    }
  }

  /** A sanitised path holds no `..`. */
  lemma SanitizeNone(path: string)
    ensures NoDotDot(SanitizePath(path))
  {
    RemoveDotDotLeavesNone(StripLeadingSlashes(path));
  }

  /** A sanitised path holds no `..`, and a path without leading slashes or `..` is kept. */
  lemma SanitizePathFacts(path: string)
    ensures NoDotDot(SanitizePath(path))
    ensures (path == [] || !IsSlash(path[0])) && NoDotDot(path) ==> SanitizePath(path) == path
  {
    SanitizeNone(path);
    SanitizeClean(path);
  }

  /** The stripping happens before the `..` removal, so a sanitised path can start with a
    * slash again: `../x` becomes `/x`. */
  lemma SanitizedPathCanLeadWithSlash(rest: string)
    ensures SanitizePath("../" + rest) == "/" + RemoveDotDot(rest)
  {
    var s := "../" + rest;
    assert s[0] == '.' && s[1] == '.' && s[2..] == "/" + rest;
    assert StripLeadingSlashes(s) == s;
    assert RemoveDotDot(s) == RemoveDotDot("/" + rest);
    assert ("/" + rest)[0] == '/' && ("/" + rest)[1..] == rest;
    assert RemoveDotDot("/" + rest) == "/" + RemoveDotDot(rest);
  }

  // ---------------------------------------------------------------------------------
  // action

  /** `context.prompt`: a string, or anything else (including absent). */
  datatype PromptArg = NotAString | PromptString(text: string)

  /** What `executePrompt` resolves to: a string, an object with the string fields it has
    * among `content` and `text`, or `null`/`undefined`. */
  datatype Reply = Plain(body: string) | Fields(content: Option<string>, text: Option<string>) | NoReply

  /** `typeof response === 'string' ? response : (response?.content || response?.text || '')` */
  function RawMarkdown(reply: Reply): string {
    match reply
    case Plain(t) => t
    case Fields(c, t) =>
      if c.Some? && c.value != "" then c.value
      else if t.Some? && t.value != "" then t.value
      else ""
    case NoReply => ""
  }

  /** A file to write: the sanitised path under `docs/specs/src/`, and its content. */
  datatype Write = Write(path: string, content: string)

  datatype Outcome = Fails(message: string) | Generated(writes: seq<Write>, message: string)

  const PromptError := "create-src-specs requires a non-empty prompt string."
  const AgentError := "create-src-specs requires llmAgent with executePrompt method."
  const EmptyError := "LLM returned empty response."
  const NoFilesError := "No files parsed from LLM response. Ensure response uses <!-- FILE: path --> markers."

  function WrittenPaths(writes: seq<Write>): (r: seq<string>)
    ensures |r| == |writes| && forall i :: 0 <= i < |writes| ==> r[i] == writes[i].path
  {
    seq(|writes|, i requires 0 <= i < |writes| => writes[i].path)
  }

  function Summary(writes: seq<Write>): string {
    "Generated " + NatToString(|writes|) + " files: " + Join(WrittenPaths(writes), ", ") + "."
  }

  /** `action(context)`; `hasExecutePrompt` says whether `llmAgent.executePrompt` is a
    * function, and `ask` is the model's answer to the request built from the prompt. */
  method Action(prompt: PromptArg, hasExecutePrompt: bool, ask: string -> Reply) returns (r: Outcome)
    ensures prompt.NotAString? || prompt.text == "" ==> r == Fails(PromptError)
    ensures prompt.PromptString? && prompt.text != "" && !hasExecutePrompt ==> r == Fails(AgentError)
    ensures prompt.PromptString? && prompt.text != "" && hasExecutePrompt ==>
      var raw := RawMarkdown(ask(prompt.text));
      var files := FilesOf(raw);
      && (Trim(raw) == "" ==> r == Fails(EmptyError))
      && (Trim(raw) != "" && files == [] ==> r == Fails(NoFilesError))
      && (Trim(raw) != "" && files != [] ==>
            && r.Generated?
            && |r.writes| == |files|
            && (forall i :: 0 <= i < |files| ==> r.writes[i] == WriteFor(files[i]))
            && r.message == Summary(r.writes))
  {
    if prompt.NotAString? || prompt.text == "" {
      return Fails(PromptError);
    }
    if !hasExecutePrompt {
      return Fails(AgentError);
    }
    var rawMarkdown := RawMarkdown(ask(prompt.text));
    if Trim(rawMarkdown) == "" {
      return Fails(EmptyError);
    }
    var files := ParseFilesFromMarkdown(rawMarkdown);
    if |files| == 0 {
      return Fails(NoFilesError);
    }
    var writes := WriteFiles(files);
    return Generated(writes, Summary(writes));
  }

  /** What `action` writes for one parsed file: its content under its sanitised path. */
  function WriteFor(f: SpecFile): Write {
    Write(SanitizePath(f.path), f.content)
  }

  /** The loop of `action` over the parsed files: each is written under its sanitised path. */
  method WriteFiles(files: seq<SpecFile>) returns (writes: seq<Write>)
    ensures |writes| == |files|
    ensures forall i :: 0 <= i < |files| ==> writes[i] == WriteFor(files[i])
  {
    writes := [];
    for k := 0 to |files|
      invariant |writes| == k
      invariant forall i :: 0 <= i < k ==> writes[i] == WriteFor(files[i])
    {
      var sanitizedPath := SanitizePath(files[k].path);
      writes := writes + [Write(sanitizedPath, files[k].content)];
    }
  }

}
