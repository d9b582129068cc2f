/** The markdown backlog ledger of `src/BacklogManager/backlogIO.mjs`.
  *
  * A ledger is a sequence of sections, each opened by a line `### File: <key>` and carrying
  * the fields `**Description:**`, `**Status:**`, `**Issues:**`, `**Options:**` and
  * `**Resolution:**`; issues and options are numbered items whose indented follow-up lines
  * are their details. `Parse` reads a ledger into an insertion-ordered map from file key to
  * section, `Render` writes one back, and `SliceToSection` / `MergeSection` work on the raw
  * text split at header lines.
  *
  * Each imperative operation is a method proved equal to a specification function
  * (`Parsed`, `NumberedItemAt`, `Rendered`, `Pieces`, `Merged`); the properties of those
  * functions are lemmas here and in module BacklogRoundTrip. */
module BacklogIO {
  import opened Wrappers
  import opened Text
  import opened OrderedMaps

  datatype Item = Item(id: nat, title: string, details: string, status: string)

  datatype Section = Section(name: string, description: string, status: string,
                             issues: seq<Item>, options: seq<Item>, resolution: string)

  type Sections = OrderedMap<Section>

  const Header: string := "### File: "
  const DescriptionMarker: string := "**Description:**"
  const StatusMarker: string := "**Status:**"
  const IssuesMarker: string := "**Issues:**"
  const OptionsMarker: string := "**Options:**"
  const ResolutionMarker: string := "**Resolution:**"

  predicate IsHeader(line: string) { StartsWith(line, Header) }

  // ---------------------------------------------------------------------------------
  // Numbered items

  /** The length of the run of ASCII digits that starts `s`. */
  function DigitRun(s: string): (n: nat)
    ensures n <= |s|
    ensures forall i :: 0 <= i < n ==> IsDigit(s[i])
    ensures n < |s| ==> !IsDigit(s[n])
  {
    if |s| > 0 && IsDigit(s[0]) then 1 + DigitRun(s[1..]) else 0
  }

  /** The test `/^\d+\./`. */
  predicate IsNumberedLine(line: string) {
    var n := DigitRun(line);
    0 < n < |line| && line[n] == '.'
  }

  /** The `(.+)` group of `/^(\d+)\.\s*(.+)$/` applied to what follows `N.`, or `None`
    * when the expression does not match. `\s*` is greedy and backtracks one character at
    * a time; `.` refuses line terminators and `$` is the end of the line. */
  function ItemTitle(rest: string): Option<string>
  {
    var t := TrimStart(rest);
    var k := |rest| - |t|;
    if t != [] then (if NoLineTerminator(t) then Some(t) else None)
    else if k > 0 && !IsLineTerminator(rest[k - 1]) then Some([rest[k - 1]])
    else None
  }

  /** `\s*(.+)$` can match `rest` with the capture starting at `j`. */
  predicate CapturesAt(rest: string, j: int) {
    0 <= j < |rest| && AllSpace(rest[..j]) && NoLineTerminator(rest[j..])
  }

  /** `ItemTitle` is the regular expression's match: the capture starts at the largest
    * position the pattern admits (greedy `\s*`), and there is no match exactly when no
    * position is admitted. */
  lemma ItemTitleIsRegexMatch(rest: string)
    ensures ItemTitle(rest).None? ==> forall j :: !CapturesAt(rest, j)
    ensures ItemTitle(rest).Some? ==>
      var t := ItemTitle(rest).value;
      var j := |rest| - |t|;
      |t| <= |rest| && t == rest[j..] && CapturesAt(rest, j)
      && forall j' :: j < j' <= |rest| ==> !CapturesAt(rest, j')
  {
    if TrimStart(rest) != [] {
      RegexMatchNotBlank(rest);
    } else {
      RegexMatchBlank(rest);
    }
  }

  /** A text with a non-space character: the capture starts at the first one. */
  lemma RegexMatchNotBlank(rest: string)
    requires TrimStart(rest) != []
    ensures ItemTitle(rest).None? ==> forall j :: !CapturesAt(rest, j)
    ensures ItemTitle(rest).Some? ==>
      var j := |rest| - |TrimStart(rest)|;
      ItemTitle(rest).value == rest[j..] && CapturesAt(rest, j)
      && forall j' :: j < j' <= |rest| ==> !CapturesAt(rest, j')
  {
    var t := TrimStart(rest);
    var k := |rest| - |t|;
    assert rest[k] == t[0];
    NoCaptureAfter(rest, k);
    if !NoLineTerminator(t) {
      NoCaptureUpTo(rest, k);
    }
  }

  /** `\s*` cannot pass a non-space character. */
  lemma NoCaptureAfter(rest: string, k: nat)
    requires k < |rest| && !IsSpace(rest[k])
    ensures forall j' :: k < j' <= |rest| ==> !CapturesAt(rest, j')
  {
    forall j' | k < j' <= |rest| ensures !AllSpace(rest[..j']) {
      assert rest[..j'][k] == rest[k];
    }
  }

  /** A line terminator at or after `k` defeats every capture that starts at or before `k`. */
  lemma NoCaptureUpTo(rest: string, k: nat)
    requires k <= |rest| && !NoLineTerminator(rest[k..])
    ensures forall j :: 0 <= j <= k ==> !CapturesAt(rest, j)
  {
    var i :| 0 <= i < |rest[k..]| && IsLineTerminator(rest[k..][i]);
    forall j | 0 <= j <= k ensures !NoLineTerminator(rest[j..]) {
      assert rest[j..][k - j + i] == rest[k..][i];
    }
  }

  lemma ItemTitleOfBlank(rest: string)
    requires TrimStart(rest) == []
    ensures ItemTitle(rest) == if |rest| > 0 && !IsLineTerminator(rest[|rest| - 1])
                               then Some([rest[|rest| - 1]]) else None
  {
    var k := |rest| - |TrimStart(rest)|;
    assert k == |rest|;
  }

  lemma RegexMatchBlank(rest: string)
    requires TrimStart(rest) == []
    ensures ItemTitle(rest).None? ==> forall j :: !CapturesAt(rest, j)
    ensures ItemTitle(rest).Some? ==>
      var j := |rest| - 1;
      ItemTitle(rest).value == rest[j..] && CapturesAt(rest, j)
      && forall j' :: j < j' <= |rest| ==> !CapturesAt(rest, j')
  {
    ItemTitleOfBlank(rest);
    if |rest| > 0 {
      if IsLineTerminator(rest[|rest| - 1]) {
        BlankEndingInTerminator(rest);
      } else {
        BlankCapturesLast(rest);
      }
    }
  }

  /** A blank text that ends in a line terminator leaves `(.+)$` nothing to match. */
  lemma BlankEndingInTerminator(rest: string)
    requires |rest| > 0 && IsLineTerminator(rest[|rest| - 1])
    ensures forall j :: !CapturesAt(rest, j)
  {
    var n := |rest|;
    forall j | 0 <= j < n ensures !NoLineTerminator(rest[j..]) {
      assert rest[j..][n - 1 - j] == rest[n - 1];
    }
  }

  /** A blank text that ends in another character: the capture is that last character. */
  lemma BlankCapturesLast(rest: string)
    requires TrimStart(rest) == [] && |rest| > 0 && !IsLineTerminator(rest[|rest| - 1])
    ensures CapturesAt(rest, |rest| - 1) && rest[|rest| - 1..] == [rest[|rest| - 1]]
  {
    var n := |rest|;
    var tail := rest[n - 1..];
    assert tail == [rest[n - 1]];
    assert NoLineTerminator(tail);
    TrimStartEmpty(rest);
    var init := rest[..n - 1];
    forall i | 0 <= i < |init| ensures IsSpace(init[i]) {
      assert init[i] == rest[i];
    }
    assert AllSpace(init);
  }

  /** The whole-line match of `/^(\d+)\.\s*(.+)$/`: `\d+` can only be the whole digit run. */
  function LineTitle(line: string): Option<string>
  {
    if IsNumberedLine(line) then ItemTitle(line[DigitRun(line) + 1..]) else None
  }

  predicate IsDetailLine(line: string) {
    StartsWith(line, "   ") || StartsWith(line, "\t")
  }

  /** The number of detail lines in `lines` from index `j` on. */
  function DetailRun(lines: seq<string>, j: nat): (n: nat)
    requires j <= |lines|
    ensures j + n <= |lines|
    ensures forall t :: j <= t < j + n ==> IsDetailLine(lines[t])
    ensures j + n < |lines| ==> !IsDetailLine(lines[j + n])
    decreases |lines| - j
  {
    if j < |lines| && IsDetailLine(lines[j]) then 1 + DetailRun(lines, j + 1) else 0
  }

  /** One step of `details += nextLine.trim() + '\n'`. */
  function DetailPiece(line: string): string { Trim(line) + "\n" }

  /** The text the detail loop of `parseNumberedItem` accumulates over `lines[a..b]`. */
  function DetailsText(lines: seq<string>, a: nat, b: nat): string
    requires a <= b <= |lines|
    decreases b - a
  {
    if a == b then "" else DetailsText(lines, a, b - 1) + DetailPiece(lines[b - 1])
  }

  /** The details text of the detail lines from `first` on, and the index after them. */
  function DetailsFrom(lines: seq<string>, first: nat): (r: (string, nat))
    requires first <= |lines|
    ensures first <= r.1 <= |lines|
  {
    var j := first + DetailRun(lines, first);
    (DetailsText(lines, first, j), j)
  }

  datatype NumberedItem = NumberedItem(title: string, details: string, consumed: nat)

  /** `parseNumberedItem(lines, i)`: the title from line `i`, the details from the detail
    * lines after it, and the number of lines used. */
  function NumberedItemAt(lines: seq<string>, i: nat): (it: NumberedItem)
    requires i < |lines|
    ensures 1 <= it.consumed <= |lines| - i
  {
    match LineTitle(lines[i])
    case None => NumberedItem("", "", 1)
    case Some(t) =>
      var (details, j) := DetailsFrom(lines, i + 1);
      NumberedItem(t, Trim(details), j - i)
  }

  /** An item line the regular expression rejects (such as a bare `1.`) yields an empty
    * item that consumes only its own line. */
  lemma BareNumberGivesEmptyItem(lines: seq<string>, i: nat)
    requires i < |lines| && LineTitle(lines[i]).None?
    ensures NumberedItemAt(lines, i) == NumberedItem("", "", 1)
  {}

  lemma BareOneIsRejected()
    ensures IsNumberedLine("1.") && LineTitle("1.") == None
  {
    assert DigitRun("1.") == 1 by { assert DigitRun("1."[1..]) == 0; }
    assert "1."[2..] == [];
  }

  /** The detail loop of `parseNumberedItem`: from line `first` on, every line that starts
    * with three spaces or a tab adds its trimmed text and a newline; the first other line
    * stops it. `j` is where it stopped. */
  method CollectDetails(lines: seq<string>, first: nat) returns (details: string, j: nat)
    requires first <= |lines|
    ensures (details, j) == DetailsFrom(lines, first)
  {
    details := "";
    j := first;
    ghost var last := first + DetailRun(lines, first);
    while j < |lines|
      invariant first <= j <= last
      invariant details == DetailsText(lines, first, j)
    {
      var nextLine := lines[j];
      if IsDetailLine(nextLine) {
        details := details + DetailPiece(nextLine);
      } else {
        break;
      }
      j := j + 1;
    }
  }

  /** `parseNumberedItem`: the title from the item line, then the following detail lines. */
  method ParseNumberedItem(lines: seq<string>, startIndex: nat) returns (item: NumberedItem)
    requires startIndex < |lines|
    ensures item == NumberedItemAt(lines, startIndex)
  {
    var firstLine := lines[startIndex];
    var m := LineTitle(firstLine);
    if m.None? {
      return NumberedItem("", "", 1);
    }
    var title := m.value;
    var details, j := CollectDetails(lines, startIndex + 1);
    item := NumberedItem(title, Trim(details), j - startIndex);
  }

  // ---------------------------------------------------------------------------------
  // Sections

  datatype Field = NoField | DescriptionField | StatusField | IssuesField | OptionsField | ResolutionField

  /** The locals of the inner loop of `parse`: the current field and the values so far. */
  datatype Draft = Draft(field: Field, description: string, status: string,
                         issues: seq<Item>, options: seq<Item>, resolution: string)

  const EmptyDraft := Draft(NoField, "", "", [], [], "")

  predicate IsFieldMarkerLine(line: string) {
    StartsWith(line, DescriptionMarker) || StartsWith(line, StatusMarker)
    || StartsWith(line, IssuesMarker) || StartsWith(line, OptionsMarker)
    || StartsWith(line, ResolutionMarker)
  }

  /** An item numbered by the counter of its list: `id: issueId++`. */
  function NewItem(it: NumberedItem, existing: seq<Item>): Item {
    Item(|existing| + 1, it.title, it.details, "")
  }

  /** One iteration of the inner loop of `parse` at line `i`: the new draft and the index
    * of the next line to read. A marker line sets the current field (and the field's value,
    * `line.replace(marker, '').trim()`); any other line goes to `ContentStep`. */
  function BodyStep(lines: seq<string>, i: nat, d: Draft): (r: (Draft, nat))
    requires i < |lines|
    ensures i < r.1 <= |lines|
  {
    var line := lines[i];
    if StartsWith(line, DescriptionMarker) then
      (d.(field := DescriptionField, description := Trim(line[|DescriptionMarker|..])), i + 1)
    else if StartsWith(line, StatusMarker) then
      (d.(field := StatusField, status := Trim(line[|StatusMarker|..])), i + 1)
    else if StartsWith(line, IssuesMarker) then (d.(field := IssuesField), i + 1)
    else if StartsWith(line, OptionsMarker) then (d.(field := OptionsField), i + 1)
    else if StartsWith(line, ResolutionMarker) then
      (d.(field := ResolutionField, resolution := Trim(line[|ResolutionMarker|..])), i + 1)
    else ContentStep(lines, i, d)
  }

  /** The remaining branches for a line that is not a marker: an item line under
    * `**Issues:**` or `**Options:**` adds an item and skips its detail lines; another
    * non-blank line continues a description or a resolution; the rest is ignored. */
  function ContentStep(lines: seq<string>, i: nat, d: Draft): (r: (Draft, nat))
    requires i < |lines|
    ensures i < r.1 <= |lines|
  {
    var line := lines[i];
    if d.field == IssuesField && IsNumberedLine(line) then
      var it := NumberedItemAt(lines, i);
      (d.(issues := d.issues + [NewItem(it, d.issues)]), i + it.consumed)
    else if d.field == OptionsField && IsNumberedLine(line) then
      var it := NumberedItemAt(lines, i);
      (d.(options := d.options + [NewItem(it, d.options)]), i + it.consumed)
    else if d.field == DescriptionField && !AllSpace(line) then
      (d.(description := d.description + " " + Trim(line)), i + 1)
    else if d.field == ResolutionField && !AllSpace(line) then
      (d.(resolution := d.resolution + " " + Trim(line)), i + 1)
    else (d, i + 1)
  }

  /** The inner loop of `parse` from line `i`: the body of one section, up to the next
    * header line or the end; the result is the final draft and where the loop stops. */
  function ParseBody(lines: seq<string>, i: nat, d: Draft): (r: (Draft, nat))
    requires i <= |lines|
    ensures i <= r.1 <= |lines|
    ensures r.1 == |lines| || IsHeader(lines[r.1])
    decreases |lines| - i
  {
    if i == |lines| || IsHeader(lines[i]) then (d, i)
    else
      var (d', k) := BodyStep(lines, i, d);
      ParseBody(lines, k, d')
  }

  function FinishSection(key: string, d: Draft): Section {
    Section(key, Trim(d.description), d.status, d.issues, d.options, Trim(d.resolution))
  }

  function HeaderKey(line: string): string
    requires IsHeader(line)
  {
    Trim(line[|Header|..])
  }

  /** The outer loop of `parse` from line `i`, with the sections collected so far. */
  function ParseFrom(lines: seq<string>, i: nat, acc: Sections): (r: Sections)
    requires i <= |lines| && acc.Valid()
    ensures r.Valid()
    decreases |lines| - i
  {
    if i == |lines| then acc
    else if IsHeader(lines[i]) then
      var key := HeaderKey(lines[i]);
      var (d, k) := ParseBody(lines, i + 1, EmptyDraft);
      ParseFrom(lines, k, Put(acc, key, FinishSection(key, d)))
    else ParseFrom(lines, i + 1, acc)
  }

  /** `parse(rawContent)` */
  function Parsed(raw: string): (r: Sections)
    ensures r.Valid()
  {
    ParseFrom(Split(raw, '\n'), 0, Empty())
  }

  /** One iteration of the inner loop of `parse` on line `i`. The locals `currentField`,
    * `description`, `status`, `issues`, `options` and `resolution` are the fields of the
    * draft `d`; `issueId` and `optionId` are the item counters. `next` is the value of `i`
    * after the iteration's closing `i++`. */
  method ParseBodyLine(lines: seq<string>, i: nat, d: Draft, issueId: nat, optionId: nat)
    returns (d': Draft, next: nat, issueId': nat, optionId': nat)
    requires i < |lines|
    requires issueId == |d.issues| + 1 && optionId == |d.options| + 1
    ensures (d', next) == BodyStep(lines, i, d)
    ensures issueId' == |d'.issues| + 1 && optionId' == |d'.options| + 1
  {
    var subline := lines[i];
    if StartsWith(subline, DescriptionMarker) {
      d', next := d.(field := DescriptionField, description := Trim(subline[|DescriptionMarker|..])), i + 1;
    } else if StartsWith(subline, StatusMarker) {
      d', next := d.(field := StatusField, status := Trim(subline[|StatusMarker|..])), i + 1;
    } else if StartsWith(subline, IssuesMarker) {
      d', next := d.(field := IssuesField), i + 1;
    } else if StartsWith(subline, OptionsMarker) {
      d', next := d.(field := OptionsField), i + 1;
    } else if StartsWith(subline, ResolutionMarker) {
      d', next := d.(field := ResolutionField, resolution := Trim(subline[|ResolutionMarker|..])), i + 1;
    } else {
      d', next, issueId', optionId' := ParseContentLine(lines, i, d, issueId, optionId);
      return;
    }
    issueId', optionId' := issueId, optionId;
  }

  /** The branches of the inner loop of `parse` after the marker tests. */
  method ParseContentLine(lines: seq<string>, i: nat, d: Draft, issueId: nat, optionId: nat)
    returns (d': Draft, next: nat, issueId': nat, optionId': nat)
    requires i < |lines|
    requires issueId == |d.issues| + 1 && optionId == |d.options| + 1
    ensures (d', next) == ContentStep(lines, i, d)
    ensures issueId' == |d'.issues| + 1 && optionId' == |d'.options| + 1
  {
    d', next, issueId', optionId' := d, i, issueId, optionId;
    var subline := lines[i];
    if d.field == IssuesField && IsNumberedLine(subline) {
      var item := ParseNumberedItem(lines, i);
      d' := d.(issues := d.issues + [Item(issueId, item.title, item.details, "")]);
      issueId' := issueId + 1;
      next := i + item.consumed - 1;
    } else if d.field == OptionsField && IsNumberedLine(subline) {
      var item := ParseNumberedItem(lines, i);
      d' := d.(options := d.options + [Item(optionId, item.title, item.details, "")]);
      optionId' := optionId + 1;
      next := i + item.consumed - 1;
    } else if d.field == DescriptionField && !AllSpace(subline) {
      d' := d.(description := d.description + " " + Trim(subline));
    } else if d.field == ResolutionField && !AllSpace(subline) {
      d' := d.(resolution := d.resolution + " " + Trim(subline));
    }
    next := next + 1;
  }

  /** `parse`: split into lines, then for each header line collect the section that follows. */
  method Parse(rawContent: string) returns (sections: Sections)
    ensures sections == Parsed(rawContent)
  {
    sections := Empty();
    var lines := Split(rawContent, '\n');
    var i := 0;
    while i < |lines|
      invariant 0 <= i <= |lines|
      invariant sections.Valid()
      invariant ParseFrom(lines, i, sections) == Parsed(rawContent)
    {
      var line := lines[i];
      if StartsWith(line, Header) {
        var fileKey := Trim(line[|Header|..]);
        var d := EmptyDraft;
        var issueId, optionId := 1, 1;
        i := i + 1;
        ghost var start := i;
        while i < |lines| && !StartsWith(lines[i], Header)
          invariant start <= i <= |lines|
          invariant issueId == |d.issues| + 1 && optionId == |d.options| + 1
          invariant ParseBody(lines, i, d) == ParseBody(lines, start, EmptyDraft)
        {
          d, i, issueId, optionId := ParseBodyLine(lines, i, d, issueId, optionId);
        }
        sections := Put(sections, fileKey, FinishSection(fileKey, d));
      } else {
        i := i + 1;
      }
    }
  }

  // ---------------------------------------------------------------------------------
  // Rendering

  function DescriptionLine(d: string): string { DescriptionMarker + " " + d }
  function StatusLine(s: string): string { StatusMarker + " " + s }
  function ResolutionLine(r: string): string { ResolutionMarker + " " + r }
  function ItemLine(it: Item): string { NatToString(it.id) + ". " + it.title }
  function DetailLine(it: Item): string { "   " + it.details }

  /** `content += `${id}. ${title}\n`` and, when the item has details, `   ${details}\n`. */
  function AppendItem(content: string, it: Item): string
  {
    var c := content + ItemLine(it) + "\n";
    if it.details != "" then c + DetailLine(it) + "\n" else c
  }

  /** The item loop of `render` over the first `j` items. */
  function AppendItems(content: string, items: seq<Item>, j: nat): string
    requires j <= |items|
    decreases j
  {
    if j == 0 then content else AppendItem(AppendItems(content, items, j - 1), items[j - 1])
  }

  /** The `**Issues:**` or `**Options:**` block, written only for a non-empty list. */
  function AppendBlock(content: string, marker: string, items: seq<Item>): string
  {
    if |items| > 0 then AppendItems(content + marker + "\n", items, |items|) + "\n" else content
  }

  /** What one iteration of the section loop of `render` appends. */
  function AppendSection(content: string, key: string, s: Section): string
  {
    var c := content + Header + key + "\n\n";
    var c := c + DescriptionLine(s.description) + "\n\n";
    var c := c + StatusLine(s.status) + "\n\n";
    var c := AppendBlock(c, IssuesMarker, s.issues);
    var c := AppendBlock(c, OptionsMarker, s.options);
    c + ResolutionLine(s.resolution) + "\n\n"
  }

  /** The text `render` has built after the first `n` entries of `m`. */
  function RawText(m: Sections, n: nat): string
    requires m.Valid() && n <= |m.keys|
    decreases n
  {
    if n == 0 then "" else AppendSection(RawText(m, n - 1), m.keys[n - 1], m.table[m.keys[n - 1]])
  }

  /** `render(sections)` */
  function Rendered(m: Sections): string
    requires m.Valid()
  {
    Trim(RawText(m, |m.keys|))
  }

  /** The issues or options block of `render`: the marker line, the item loop, a blank line. */
  method RenderBlock(content: string, marker: string, items: seq<Item>) returns (out: string)
    ensures out == AppendBlock(content, marker, items)
  {
    out := content;
    if |items| > 0 {
      out := out + marker + "\n";
      ghost var start := out;
      var j := 0;
      while j < |items|
        invariant 0 <= j <= |items|
        invariant out == AppendItems(start, items, j)
      {
        var item := items[j];
        out := out + ItemLine(item) + "\n";
        if item.details != "" {
          out := out + DetailLine(item) + "\n";
        }
        j := j + 1;
      }
      out := out + "\n";
    }
  }

  /** The body of the section loop of `render`. */
  method RenderSection(content: string, fileKey: string, section: Section) returns (out: string)
    ensures out == AppendSection(content, fileKey, section)
  {
    out := content + Header + fileKey + "\n\n";
    out := out + DescriptionLine(section.description) + "\n\n";
    out := out + StatusLine(section.status) + "\n\n";
    out := RenderBlock(out, IssuesMarker, section.issues);
    out := RenderBlock(out, OptionsMarker, section.options);
    out := out + ResolutionLine(section.resolution) + "\n\n";
  }

  /** The loop of `render`: every section in entry order. */
  method RenderEntries(sections: Sections) returns (content: string)
    requires sections.Valid()
    ensures content == RawText(sections, |sections.keys|)
  {
    content := "";
    for n := 0 to |sections.keys|
      invariant content == RawText(sections, n)
    {
      var fileKey := sections.keys[n];
      content := RenderSection(content, fileKey, sections.table[fileKey]);
    }
  }

  /** `render`: the text of every section, trimmed as a whole. */
  method Render(sections: Sections) returns (text: string)
    requires sections.Valid()
    ensures text == Rendered(sections)
  {
    var content := RenderEntries(sections);
    text := Trim(content);
  }

  /** An empty ledger renders to the empty text. */
  lemma RenderEmpty(m: Sections)
    requires m.Valid() && m.keys == []
    ensures Rendered(m) == ""
  {}

  // ---------------------------------------------------------------------------------
  // Text-level sections: `rawContent.split(/^### File: /m)`

  /** `rawContent.split(/^### File: /m)`: the text before the first header, then one piece
    * per header holding the rest of its line and the lines up to the next header. */
  function Pieces(s: string): (r: seq<string>)
    ensures |r| >= 1
  {
    SplitAtLineStarts(s, Header, 0)
  }

  /** Splitting loses nothing: the pieces joined by the header text are the text again. */
  lemma JoinPieces(s: string)
    ensures Join(Pieces(s), Header) == s
  {
    JoinSplitAtLineStarts(s, Header, 0);
  }

  /** The test both functions apply to a piece: `section.split('\n')[0].trim() === fileKey`. */
  predicate SectionIs(section: string, fileKey: string) {
    Trim(Split(section, '\n')[0]) == fileKey
  }

  /** The first piece at index `i` or later that is the section of `fileKey`. */
  function FirstMatch(pieces: seq<string>, fileKey: string, i: nat): (r: Option<nat>)
    requires i <= |pieces|
    ensures r.Some? ==> i <= r.value < |pieces| && SectionIs(pieces[r.value], fileKey)
    ensures r.Some? ==> forall j :: i <= j < r.value ==> !SectionIs(pieces[j], fileKey)
    ensures r.None? ==> forall j :: i <= j < |pieces| ==> !SectionIs(pieces[j], fileKey)
    decreases |pieces| - i
  {
    if i == |pieces| then None
    else if SectionIs(pieces[i], fileKey) then Some(i)
    else FirstMatch(pieces, fileKey, i + 1)
  }

  /** `sliceToSection(rawContent, fileKey)`: the first section (after the text before the
    * first header) whose first line trims to `fileKey`, header restored and trimmed, or `''`. */
  function Sliced(rawContent: string, fileKey: string): (r: string)
    ensures var m := FirstMatch(Pieces(rawContent), fileKey, 1);
      && (m.None? ==> r == "")
      && (m.Some? ==> r == Header + Trim(Pieces(rawContent)[m.value]))
  {
    var pieces := Pieces(rawContent);
    match FirstMatch(pieces, fileKey, 1)
    case None => ""
    case Some(i) => Header + Trim(pieces[i])
  }

  method SliceToSection(rawContent: string, fileKey: string) returns (r: string)
    ensures r == Sliced(rawContent, fileKey)
    ensures r == "" <==> forall i :: 1 <= i < |Pieces(rawContent)| ==> !SectionIs(Pieces(rawContent)[i], fileKey)
  {
    var sections := Pieces(rawContent);
    for i := 1 to |sections|
      invariant FirstMatch(sections, fileKey, 1) == FirstMatch(sections, fileKey, i)
    {
      var section := sections[i];
      var lines := Split(section, '\n');
      if Trim(lines[0]) == fileKey {
        return Header + Trim(section);
      }
    }
    return "";
  }

  /** `sectionText.replace(/^### File: /, '')`: without the `m` flag only the very start
    * of the text can match. */
  function StripHeader(t: string): (r: string)
    ensures StartsWith(t, Header) ==> t == Header + r
    ensures !StartsWith(t, Header) ==> r == t
  {
    if StartsWith(t, Header) then t[|Header|..] else t
  }

  /** What the loop of `mergeSection` has built after the pieces before `n`: a matching piece
    * becomes `sectionText` without its header, any other piece is put back after a header. */
  function MergedPieces(pieces: seq<string>, sectionText: string, fileKey: string, n: nat): string
    requires 1 <= n <= |pieces|
    decreases n
  {
    if n == 1 then pieces[0]
    else
      MergedPieces(pieces, sectionText, fileKey, n - 1)
      + (if SectionIs(pieces[n - 1], fileKey) then StripHeader(sectionText) else Header + pieces[n - 1])
  }

  /** `mergeSection(rawContent, sectionText, fileKey)` as written. */
  function Merged(rawContent: string, sectionText: string, fileKey: string): string
  {
    var pieces := Pieces(rawContent);
    MergedPieces(pieces, sectionText, fileKey, |pieces|)
  }

  method MergeSection(rawContent: string, sectionText: string, fileKey: string) returns (newContent: string)
    ensures newContent == Merged(rawContent, sectionText, fileKey)
  {
    var sections := Pieces(rawContent);
    newContent := sections[0];
    for i := 1 to |sections|
      invariant newContent == MergedPieces(sections, sectionText, fileKey, i)
    {
      var section := sections[i];
      var lines := Split(section, '\n');
      if Trim(lines[0]) == fileKey {
        newContent := newContent + StripHeader(sectionText);
      } else {
        newContent := newContent + Header + section;
      }
    }
  }

  /** Pieces that are all left alone are joined back as they were split. */
  lemma {:induction false} MergedUntouched(pieces: seq<string>, sectionText: string, fileKey: string, n: nat)
    requires 1 <= n <= |pieces|
    requires forall i :: 1 <= i < n ==> !SectionIs(pieces[i], fileKey)
    ensures MergedPieces(pieces, sectionText, fileKey, n) == Join(pieces[..n], Header)
    decreases n
  {
    if n > 1 {
      MergedUntouched(pieces, sectionText, fileKey, n - 1);
      JoinPrefixStep(pieces, Header, n);
    } else {
      assert pieces[..1] == [pieces[0]];
    }
  }

  /** With no section of `fileKey`, merging gives back the text unchanged. */
  lemma MergeWithoutMatch(rawContent: string, sectionText: string, fileKey: string)
    requires forall i :: 1 <= i < |Pieces(rawContent)| ==> !SectionIs(Pieces(rawContent)[i], fileKey)
    ensures Merged(rawContent, sectionText, fileKey) == rawContent
  {
    var pieces := Pieces(rawContent);
    MergedUntouched(pieces, sectionText, fileKey, |pieces|);
    assert pieces[..|pieces|] == pieces;
    JoinPieces(rawContent);
  }

  /** As written, merging a section's own slice back removes its header: the section of
    * `a` in `### File: a\n` becomes the plain line `a`, which is no section at all. */
  lemma MergeDropsHeader()
    ensures Sliced("### File: a\n", "a") == "### File: a"
    ensures Merged("### File: a\n", Sliced("### File: a\n", "a"), "a") == "a"
    ensures Pieces("a") == ["a"]
  {
    var raw := "### File: a\n";
    assert LineStartMatch(raw, Header, 0);
    assert NextLineStartMatch(raw, Header, 11) == 12;
    assert NextLineStartMatch(raw, Header, 10) == 12;
    assert SplitAtLineStarts(raw, Header, 10) == ["a\n"];
    var pieces := Pieces(raw);
    assert pieces == ["", "a\n"];
    assert Split("a\n", '\n')[0] == "a";
    assert Trim("a") == "a" by { TrimOfTrimmed("a"); }
    assert SectionIs(pieces[1], "a");
    assert FirstMatch(pieces, "a", 1) == Some(1);
    assert Trim("a\n") == "a" by {
      assert TrimEnd("a\n") == "a";
    }
    var sliced := Sliced(raw, "a");
    assert sliced == Header + "a";
    assert StripHeader(sliced) == "a" by { StartsWithAppend(Header, "a"); }
    assert MergedPieces(pieces, sliced, "a", 1) == "";
    assert MergedPieces(pieces, sliced, "a", 2) == "" + "a";
    assert NextLineStartMatch("a", Header, 1) == 1;
    assert NextLineStartMatch("a", Header, 0) == 1;
  }

  /** The evidently intended merge: a matching piece is replaced by `sectionText` under a
    * header line, so the section stays a section. */
  function MergedFixedPieces(pieces: seq<string>, sectionText: string, fileKey: string, n: nat): string
    requires 1 <= n <= |pieces|
    decreases n
  {
    if n == 1 then pieces[0]
    else
      MergedFixedPieces(pieces, sectionText, fileKey, n - 1)
      + Header + (if SectionIs(pieces[n - 1], fileKey) then StripHeader(sectionText) else pieces[n - 1])
  }

  function MergedFixed(rawContent: string, sectionText: string, fileKey: string): string
  {
    var pieces := Pieces(rawContent);
    MergedFixedPieces(pieces, sectionText, fileKey, |pieces|)
  }

  lemma {:induction false} MergedFixedOwnText(pieces: seq<string>, body: string, fileKey: string, n: nat)
    requires 1 <= n <= |pieces|
    requires forall i :: 1 <= i < n && SectionIs(pieces[i], fileKey) ==> pieces[i] == body
    ensures MergedFixedPieces(pieces, Header + body, fileKey, n) == Join(pieces[..n], Header)
    decreases n
  {
    if n > 1 {
      MergedFixedOwnText(pieces, body, fileKey, n - 1);
      StartsWithAppend(Header, body);
      JoinPrefixStep(pieces, Header, n);
    } else {
      assert pieces[..1] == [pieces[0]];
    }
  }

  /** Putting back a section's own text, header included, gives back the whole text. */
  lemma MergeFixedRestores(rawContent: string, body: string, fileKey: string)
    requires forall i :: 1 <= i < |Pieces(rawContent)| && SectionIs(Pieces(rawContent)[i], fileKey) ==>
                           Pieces(rawContent)[i] == body
    ensures MergedFixed(rawContent, Header + body, fileKey) == rawContent
  {
    var pieces := Pieces(rawContent);
    MergedFixedOwnText(pieces, body, fileKey, |pieces|);
    assert pieces[..|pieces|] == pieces;
    JoinPieces(rawContent);
  }

  /** The same text given to the merge as written loses the header of every replaced
    * section: the smallest such text. */
  lemma MergeAsWrittenDoesNotRestore()
    ensures MergedFixed("### File: a", "### File: a", "a") == "### File: a"
    ensures Merged("### File: a", "### File: a", "a") == "a"
  {
    var raw := "### File: a";
    assert LineStartMatch(raw, Header, 0);
    assert NextLineStartMatch(raw, Header, 10) == 11;
    assert SplitAtLineStarts(raw, Header, 10) == ["a"];
    var pieces := Pieces(raw);
    assert pieces == ["", "a"];
    SplitNoSep("a", '\n');
    assert Trim("a") == "a" by { TrimOfTrimmed("a"); }
    assert SectionIs(pieces[1], "a");
    assert StripHeader(raw) == "a" by { StartsWithAppend(Header, "a"); }
    assert MergedPieces(pieces, raw, "a", 2) == "" + "a";
    assert MergedFixedPieces(pieces, raw, "a", 2) == "" + Header + "a";
  }
}
