/** The conditional round trip of the backlog ledger: parsing what `render` writes gives
  * back the same sections, provided every key and text field is a single trimmed line,
  * every title is non-empty, every section's `name` is its key and every item list is
  * numbered 1, 2, 3, ... with an empty item status (`Canonical`).
  *
  * The proof views the rendered text as a list of lines (`RenderedLines`): one block of
  * lines per section, the last one without its trailing blank line and with the
  * resolution line as the final `trim()` leaves it. The parser is then followed line by
  * line through each section. */
module BacklogRoundTrip {
  import opened Wrappers
  import opened Text
  import opened OrderedMaps
  import opened BacklogIO

  // ---------------------------------------------------------------------------------
  // The sections the round trip holds for

  /** A value that survives being written on one line and read back with `trim()`. */
  predicate OneLineTrimmed(s: string) {
    IsTrimmed(s) && NoLineTerminator(s)
  }

  /** The `id`-th item as `parse` would build it. */
  predicate CanonicalItem(it: Item, id: nat) {
    it.id == id && it.status == "" && it.title != ""
    && OneLineTrimmed(it.title) && OneLineTrimmed(it.details)
  }

  predicate CanonicalItems(items: seq<Item>) {
    forall j :: 0 <= j < |items| ==> CanonicalItem(items[j], j + 1)
  }

  predicate CanonicalSection(key: string, s: Section) {
    OneLineTrimmed(key) && s.name == key
    && OneLineTrimmed(s.description) && OneLineTrimmed(s.status) && OneLineTrimmed(s.resolution)
    && CanonicalItems(s.issues) && CanonicalItems(s.options)
  }

  predicate Canonical(m: Sections) {
    m.Valid() && forall k :: k in m.table ==> CanonicalSection(k, m.table[k])
  }

  // ---------------------------------------------------------------------------------
  // The rendered text as lines

  function ItemLines(it: Item): seq<string> {
    if it.details != "" then [ItemLine(it), DetailLine(it)] else [ItemLine(it)]
  }

  function ItemsLines(items: seq<Item>, j: nat): seq<string>
    requires j <= |items|
    decreases j
  {
    if j == 0 then [] else ItemsLines(items, j - 1) + ItemLines(items[j - 1])
  }

  function BlockLines(marker: string, items: seq<Item>): seq<string> {
    if |items| > 0 then [marker] + ItemsLines(items, |items|) + [""] else []
  }

  /** The header line is followed by these: the description and status lines, each with
    * a blank line before it and one after the status. */
  function HeadLines(s: Section): seq<string> {
    ["", DescriptionLine(s.description), "", StatusLine(s.status), ""]
  }

  /** The resolution line once the whole text is trimmed: an empty resolution loses the
    * space after the marker. */
  function LastResolutionLine(r: string): string {
    if r == "" then ResolutionMarker else ResolutionLine(r)
  }

  /** The resolution line, followed by a blank line unless it ends the text. */
  function TailLines(s: Section, last: bool): seq<string> {
    if last then [LastResolutionLine(s.resolution)] else [ResolutionLine(s.resolution), ""]
  }

  function SectionLines(key: string, s: Section, last: bool): seq<string> {
    [Header + key] + HeadLines(s) + BlockLines(IssuesMarker, s.issues)
    + BlockLines(OptionsMarker, s.options) + TailLines(s, last)
  }

  /** The lines of the first `n` sections as the render loop writes them. */
  function AllLines(m: Sections, n: nat): seq<string>
    requires m.Valid() && n <= |m.keys|
    decreases n
  {
    if n == 0 then []
    else AllLines(m, n - 1) + SectionLines(m.keys[n - 1], m.table[m.keys[n - 1]], false)
  }

  /** The lines of the trimmed text. */
  function RenderedLines(m: Sections): seq<string>
    requires m.Valid() && |m.keys| > 0
  {
    var n := |m.keys|;
    AllLines(m, n - 1) + SectionLines(m.keys[n - 1], m.table[m.keys[n - 1]], true)
  }

  // ---------------------------------------------------------------------------------
  // From the render functions to lines

  lemma AppendItemIsLines(c: string, it: Item)
    ensures AppendItem(c, it) == AppendLines(c, ItemLines(it))
  {
    var c1 := c + ItemLine(it) + "\n";
    if it.details != "" {
      assert ItemLines(it)[1..] == [DetailLine(it)];
      assert AppendLines(c1, [DetailLine(it)]) == AppendLines(c1 + DetailLine(it) + "\n", []);
    } else {
      assert AppendLines(c, ItemLines(it)) == AppendLines(c1, []);
    }
  }

  lemma {:induction false} AppendItemsIsLines(c: string, items: seq<Item>, j: nat)
    requires j <= |items|
    ensures AppendItems(c, items, j) == AppendLines(c, ItemsLines(items, j))
    decreases j
  {
    if j > 0 {
      AppendItemsIsLines(c, items, j - 1);
      AppendItemIsLines(AppendItems(c, items, j - 1), items[j - 1]);
      AppendLinesConcat(c, ItemsLines(items, j - 1), ItemLines(items[j - 1]));
    }
  }

  lemma AppendBlockIsLines(c: string, marker: string, items: seq<Item>)
    ensures AppendBlock(c, marker, items) == AppendLines(c, BlockLines(marker, items))
  {
    if |items| > 0 {
      var body := ItemsLines(items, |items|);
      var c1 := c + marker + "\n";
      assert AppendLines(c, [marker]) == c1 by {
        assert AppendLines(c, [marker]) == AppendLines(c1, []);
      }
      AppendItemsIsLines(c1, items, |items|);
      var c2 := AppendLines(c1, body);
      assert AppendLines(c2, [""]) == c2 + "\n" by {
        assert AppendLines(c2, [""]) == AppendLines(c2 + "" + "\n", []);
      }
      AppendLinesConcat(c, [marker] + body, [""]);
      AppendLinesConcat(c, [marker], body);
    }
  }

  /** `content + a + "\n\n"` appends the line `a` and a blank line. */
  lemma LineAndBlank(c: string, a: string)
    ensures c + a + "\n\n" == AppendLines(c, [a, ""])
  {
    var c1 := c + a + "\n";
    assert AppendLines(c, [a, ""]) == AppendLines(c1, [""]);
    assert AppendLines(c1, [""]) == AppendLines(c1 + "" + "\n", []);
    assert c + a + "\n\n" == c1 + "" + "\n";
  }

  lemma AppendSectionIsLines(c: string, key: string, s: Section)
    ensures AppendSection(c, key, s) == AppendLines(c, SectionLines(key, s, false))
  {
    var l1, l2, l3 := [Header + key, ""], [DescriptionLine(s.description), ""], [StatusLine(s.status), ""];
    var issues := BlockLines(IssuesMarker, s.issues);
    var options := BlockLines(OptionsMarker, s.options);
    var tail := [ResolutionLine(s.resolution), ""];
    var c1 := c + Header + key + "\n\n";
    assert c + Header + key == c + (Header + key);
    LineAndBlank(c, Header + key);
    assert c1 == AppendLines(c, l1);
    var c2 := c1 + DescriptionLine(s.description) + "\n\n";
    LineAndBlank(c1, DescriptionLine(s.description));
    AppendLinesConcat(c, l1, l2);
    assert c2 == AppendLines(c, l1 + l2);
    var c3 := c2 + StatusLine(s.status) + "\n\n";
    LineAndBlank(c2, StatusLine(s.status));
    AppendLinesConcat(c, l1 + l2, l3);
    assert c3 == AppendLines(c, l1 + l2 + l3);
    var c4 := AppendBlock(c3, IssuesMarker, s.issues);
    AppendBlockIsLines(c3, IssuesMarker, s.issues);
    AppendLinesConcat(c, l1 + l2 + l3, issues);
    assert c4 == AppendLines(c, l1 + l2 + l3 + issues);
    var c5 := AppendBlock(c4, OptionsMarker, s.options);
    AppendBlockIsLines(c4, OptionsMarker, s.options);
    AppendLinesConcat(c, l1 + l2 + l3 + issues, options);
    assert c5 == AppendLines(c, l1 + l2 + l3 + issues + options);
    LineAndBlank(c5, ResolutionLine(s.resolution));
    AppendLinesConcat(c, l1 + l2 + l3 + issues + options, tail);
    assert [Header + key] + HeadLines(s) == l1 + l2 + l3;
    assert SectionLines(key, s, false) == l1 + l2 + l3 + issues + options + tail;
  }

  /** One render step appends the lines of one section. */
  lemma RawTextStep(m: Sections, n: nat)
    requires m.Valid() && 0 < n <= |m.keys|
    ensures RawText(m, n) == AppendLines(RawText(m, n - 1), SectionLines(m.keys[n - 1], m.table[m.keys[n - 1]], false))
  {
    AppendSectionIsLines(RawText(m, n - 1), m.keys[n - 1], m.table[m.keys[n - 1]]);
  }

  lemma {:induction false} RawTextIsLines(m: Sections, n: nat)
    requires m.Valid() && n <= |m.keys|
    ensures RawText(m, n) == AppendLines("", AllLines(m, n))
    decreases n
  {
    if n > 0 {
      var k := m.keys[n - 1];
      var prev, lines := AllLines(m, n - 1), SectionLines(k, m.table[k], false);
      RawTextIsLines(m, n - 1);
      RawTextStep(m, n);
      AppendLinesConcat("", prev, lines);
    }
  }

  // ---------------------------------------------------------------------------------
  // Reading the lines back, one kind of line at a time

  /** The inner loop of `parse` goes from line `p` with draft `d` to line `q` with draft
    * `d'` and continues from there as if it had started there. */
  predicate Reads(lines: seq<string>, p: nat, d: Draft, q: nat, d': Draft) {
    p <= q <= |lines| && ParseBody(lines, p, d) == ParseBody(lines, q, d')
  }

  lemma ReadsTrans(lines: seq<string>, p: nat, d: Draft, q: nat, d': Draft, r: nat, d'': Draft)
    requires Reads(lines, p, d, q, d') && Reads(lines, q, d', r, d'')
    ensures Reads(lines, p, d, r, d'')
  {}

  /** A line that differs from `prefix` at position `k` does not start with it. */
  lemma DiffersAt(line: string, prefix: string, k: nat)
    requires k < |prefix| && k < |line| && line[k] != prefix[k]
    ensures !StartsWith(line, prefix)
  {
    if |prefix| <= |line| {
      assert line[..|prefix|][k] == line[k];
    }
  }

  /** What follows `X` in a suffix of the lines. */
  lemma SuffixDrop(lines: seq<string>, p: nat, x: seq<string>, y: seq<string>)
    requires p <= |lines| && lines[p..] == x + y
    ensures p + |x| <= |lines| && lines[p + |x|..] == y
  {
    assert lines[p..][|x|..] == y;
  }

  lemma SuffixAt(lines: seq<string>, p: nat, q: nat, x: seq<string>, y: seq<string>)
    requires p <= |lines| && lines[p..] == x + y && q == p + |x|
    ensures q <= |lines| && lines[q..] == y
  {
    SuffixDrop(lines, p, x, y);
  }

  /** A blank line changes nothing, whatever the current field. */
  lemma BlankLineSkipped(lines: seq<string>, p: nat, d: Draft)
    requires p < |lines| && lines[p] == ""
    ensures Reads(lines, p, d, p + 1, d)
  {
    assert !IsHeader(lines[p]) && !IsNumberedLine(lines[p]) && AllSpace(lines[p]);
  }

  lemma DescriptionLineSets(lines: seq<string>, p: nat, d: Draft, x: string)
    requires p < |lines| && lines[p] == DescriptionLine(x) && IsTrimmed(x)
    ensures Reads(lines, p, d, p + 1, d.(field := DescriptionField, description := x))
  {
    var line := lines[p];
    assert line == DescriptionMarker + (" " + x);
    StartsWithAppend(DescriptionMarker, " " + x);
    DiffersAt(line, Header, 0);
    TrimOfTrimmedPadding(" ", x, "");
    assert " " + x + "" == " " + x;
  }

  lemma StatusLineSets(lines: seq<string>, p: nat, d: Draft, x: string)
    requires p < |lines| && lines[p] == StatusLine(x) && IsTrimmed(x)
    ensures Reads(lines, p, d, p + 1, d.(field := StatusField, status := x))
  {
    var line := lines[p];
    assert line == StatusMarker + (" " + x);
    StartsWithAppend(StatusMarker, " " + x);
    DiffersAt(line, Header, 0);
    DiffersAt(line, DescriptionMarker, 2);
    TrimOfTrimmedPadding(" ", x, "");
    assert " " + x + "" == " " + x;
  }

  lemma ResolutionLineSets(lines: seq<string>, p: nat, d: Draft, x: string)
    requires p < |lines| && IsTrimmed(x)
    requires lines[p] == ResolutionLine(x) || lines[p] == LastResolutionLine(x)
    ensures Reads(lines, p, d, p + 1, d.(field := ResolutionField, resolution := x))
  {
    var line := lines[p];
    var rest := if line == ResolutionLine(x) then " " + x else "";
    assert line == ResolutionMarker + rest;
    StartsWithAppend(ResolutionMarker, rest);
    DiffersAt(line, Header, 0);
    DiffersAt(line, DescriptionMarker, 2);
    DiffersAt(line, StatusMarker, 2);
    DiffersAt(line, IssuesMarker, 2);
    DiffersAt(line, OptionsMarker, 2);
    TrimOfTrimmedPadding(" ", x, "");
    assert " " + x + "" == " " + x;
  }

  /** The leading digit run of a number followed by a non-digit is the number. */
  lemma {:induction false} DigitRunOfDigits(ds: string, rest: string)
    requires forall i :: 0 <= i < |ds| ==> IsDigit(ds[i])
    requires rest != [] && !IsDigit(rest[0])
    ensures DigitRun(ds + rest) == |ds|
    decreases |ds|
  {
    if ds == [] {
      assert ds + rest == rest;
    } else {
      assert (ds + rest)[1..] == ds[1..] + rest;
      DigitRunOfDigits(ds[1..], rest);
    }
  }

  lemma SliceAfterPrefix(a: string, b: string)
    ensures (a + b)[|a|..] == b
  {}

  /** A rendered item line passes the item-line test and gives back its title. */
  lemma ItemLineTitle(it: Item)
    requires it.title != "" && OneLineTrimmed(it.title)
    ensures IsNumberedLine(ItemLine(it)) && LineTitle(ItemLine(it)) == Some(it.title)
  {
    var ds := NatToString(it.id);
    var line := ItemLine(it);
    assert line == ds + (". " + it.title);
    DigitRunOfDigits(ds, ". " + it.title);
    SliceAfterPrefix(ds, ". " + it.title);
    assert line[|ds|] == '.';
    assert line[|ds| + 1..] == line[|ds|..][1..];
    TrimStartSpacePrefix(" ", it.title);
    TrimmedNoSpace(it.title);
  }

  /** Which list a block fills: the options when `opt`, the issues otherwise. */
  function ListMarker(opt: bool): string { if opt then OptionsMarker else IssuesMarker }
  function ListField(opt: bool): Field { if opt then OptionsField else IssuesField }
  function ListOf(d: Draft, opt: bool): seq<Item> { if opt then d.options else d.issues }
  function WithList(d: Draft, opt: bool, items: seq<Item>): Draft {
    if opt then d.(options := items) else d.(issues := items)
  }

  /** A rendered item line is neither a header nor a field marker. */
  lemma ItemLineIsNoMarker(it: Item)
    ensures !IsHeader(ItemLine(it)) && !IsFieldMarkerLine(ItemLine(it))
  {
    var line := ItemLine(it);
    var ds := NatToString(it.id);
    assert line[0] == ds[0];
    DiffersAt(line, Header, 0);
    DiffersAt(line, DescriptionMarker, 0);
    DiffersAt(line, StatusMarker, 0);
    DiffersAt(line, IssuesMarker, 0);
    DiffersAt(line, OptionsMarker, 0);
    DiffersAt(line, ResolutionMarker, 0);
  }

  /** The detail lines after a rendered item line are its one detail line, if any. */
  lemma DetailsOfItem(lines: seq<string>, p: nat, it: Item, rest: seq<string>)
    requires p <= |lines| && lines[p..] == ItemLines(it) + rest
    requires rest != [] && !IsDetailLine(rest[0]) && OneLineTrimmed(it.details)
    ensures p + |ItemLines(it)| < |lines|
    ensures DetailsFrom(lines, p + 1).1 == p + |ItemLines(it)|
    ensures Trim(DetailsFrom(lines, p + 1).0) == it.details
  {
    var n := |ItemLines(it)|;
    assert lines[p + n] == rest[0] by { assert lines[p..][n] == lines[p + n]; }
    if it.details != "" {
      assert lines[p + 1] == DetailLine(it) by { assert lines[p..][1] == lines[p + 1]; }
      assert IsDetailLine(lines[p + 1]) by { StartsWithAppend("   ", it.details); }
      assert DetailRun(lines, p + 1) == 1;
      TrimOfTrimmedPadding("   ", it.details, "");
      assert "   " + it.details + "" == DetailLine(it);
      assert DetailsText(lines, p + 1, p + 2) == it.details + "\n";
      TrimOfTrimmedPadding("", it.details, "\n");
      assert "" + it.details + "\n" == it.details + "\n";
    } else {
      assert DetailRun(lines, p + 1) == 0;
    }
  }

  /** `parseNumberedItem` on a rendered item gives back its title and details and
    * consumes exactly its lines. */
  lemma ItemRead(lines: seq<string>, p: nat, it: Item, rest: seq<string>)
    requires p <= |lines| && lines[p..] == ItemLines(it) + rest
    requires rest != [] && !IsDetailLine(rest[0])
    requires it.title != "" && OneLineTrimmed(it.title) && OneLineTrimmed(it.details)
    ensures p < |lines| && lines[p] == ItemLine(it) && IsNumberedLine(lines[p])
    ensures NumberedItemAt(lines, p) == NumberedItem(it.title, it.details, |ItemLines(it)|)
  {
    assert lines[p..][0] == lines[p];
    ItemLineTitle(it);
    DetailsOfItem(lines, p, it, rest);
  }

  /** A line that is neither a header nor a field marker goes to the content branches. */
  lemma PlainLineStep(lines: seq<string>, p: nat, d: Draft, k: nat, d': Draft)
    requires p < |lines| && !IsHeader(lines[p]) && !IsFieldMarkerLine(lines[p])
    requires ContentStep(lines, p, d) == (d', k)
    ensures ParseBody(lines, p, d) == ParseBody(lines, k, d')
  {
  }

  /** An item line under its block's field adds the item `parseNumberedItem` reads. */
  lemma ItemContentStep(lines: seq<string>, p: nat, d: Draft, opt: bool)
    requires p < |lines| && d.field == ListField(opt) && IsNumberedLine(lines[p])
    ensures var read := NumberedItemAt(lines, p);
      ContentStep(lines, p, d) == (WithList(d, opt, ListOf(d, opt) + [NewItem(read, ListOf(d, opt))]), p + read.consumed)
  {
  }

  /** What the item-line tests and `parseNumberedItem` see at line `p`: an item line that
    * reads as the title and details of `it` and ends before line `q`. */
  predicate ItemAt(lines: seq<string>, p: nat, q: nat, it: Item) {
    p < q && p < |lines| && !IsHeader(lines[p]) && !IsFieldMarkerLine(lines[p]) && IsNumberedLine(lines[p])
    && NumberedItemAt(lines, p) == NumberedItem(it.title, it.details, q - p)
  }

  /** A rendered item followed by a line that is no detail line. */
  lemma ItemAtOfLayout(lines: seq<string>, p: nat, q: nat, it: Item, rest: seq<string>)
    requires p <= |lines| && lines[p..] == ItemLines(it) + rest && q == p + |ItemLines(it)|
    requires rest != [] && !IsDetailLine(rest[0])
    requires it.title != "" && OneLineTrimmed(it.title) && OneLineTrimmed(it.details)
    ensures ItemAt(lines, p, q, it)
  {
    ItemRead(lines, p, it, rest);
    ItemLineIsNoMarker(it);
  }

  /** One step over an item line whose item has been read as `it`, from line `p` to `q`. */
  lemma ItemStepAt(lines: seq<string>, p: nat, q: nat, it: Item, d: Draft, opt: bool, d': Draft)
    requires ItemAt(lines, p, q, it)
    requires d.field == ListField(opt) && it.id == |ListOf(d, opt)| + 1 && it.status == ""
    requires d' == WithList(d, opt, ListOf(d, opt) + [it])
    ensures Reads(lines, p, d, q, d')
  {
    ItemContentStep(lines, p, d, opt);
    PlainLineStep(lines, p, d, q, d');
  }

  /** The lines of a list of items, first item first. */
  function ItemRun(items: seq<Item>): seq<string>
    decreases |items|
  {
    if items == [] then [] else ItemLines(items[0]) + ItemRun(items[1..])
  }

  lemma {:induction false} ItemRunSnoc(items: seq<Item>, it: Item)
    ensures ItemRun(items + [it]) == ItemRun(items) + ItemLines(it)
    decreases |items|
  {
    if items == [] {
      assert items + [it] == [it];
      assert ItemRun([it]) == ItemLines(it) + ItemRun([]);
    } else {
      assert (items + [it])[1..] == items[1..] + [it];
      ItemRunSnoc(items[1..], it);
    }
  }

  lemma SnocSlice<T>(s: seq<T>, j: nat)
    requires 0 < j <= |s|
    ensures s[..j - 1] + [s[j - 1]] == s[..j]
  {}

  lemma {:induction false} ItemsLinesIsRun(items: seq<Item>, j: nat)
    requires j <= |items|
    ensures ItemsLines(items, j) == ItemRun(items[..j])
    decreases j
  {
    if j == 0 {
      assert items[..0] == [];
    } else {
      var init, last := items[..j - 1], items[j - 1];
      ItemsLinesIsRun(items, j - 1);
      ItemRunSnoc(init, last);
      SnocSlice(items, j);
      assert ItemsLines(items, j) == ItemsLines(items, j - 1) + ItemLines(last);
    }
  }

  /** The items of a list, numbered on from `base`, as `parse` builds them. */
  predicate NumberedFrom(items: seq<Item>, base: nat)
    decreases |items|
  {
    items == [] || (CanonicalItem(items[0], base) && NumberedFrom(items[1..], base + 1))
  }

  /** A rendered item line starts with a digit, so it is no detail line. */
  lemma ItemLineNotDetail(it: Item)
    ensures ItemLine(it) != [] && !IsDetailLine(ItemLine(it))
  {
    var ds := NatToString(it.id);
    assert ItemLine(it)[0] == ds[0];
    DiffersAt(ItemLine(it), "   ", 0);
    DiffersAt(ItemLine(it), "\t", 0);
  }

  /** The first rendered item of a run, and the lines after it. */
  lemma ItemRunCons(items: seq<Item>, head: seq<string>, tail: seq<string>)
    requires items != [] && head == ItemLines(items[0]) && tail == ItemRun(items[1..])
    ensures ItemRun(items) == head + tail
  {}

  lemma MoreNotDetail(items: seq<Item>, rest: seq<string>, more: seq<string>)
    requires rest != [] && !IsDetailLine(rest[0]) && more == ItemRun(items) + rest
    ensures more != [] && !IsDetailLine(more[0])
  {
    if items != [] {
      ItemLineNotDetail(items[0]);
      ItemRunCons(items, ItemLines(items[0]), ItemRun(items[1..]));
      assert more[0] == ItemLine(items[0]);
    }
  }

  lemma ItemRunHead(lines: seq<string>, p: nat, items: seq<Item>, rest: seq<string>, more: seq<string>)
    requires items != [] && p <= |lines| && lines[p..] == ItemRun(items) + rest
    requires rest != [] && !IsDetailLine(rest[0]) && more == ItemRun(items[1..]) + rest
    ensures lines[p..] == ItemLines(items[0]) + more
    ensures more != [] && !IsDetailLine(more[0])
  {
    var head, tail := ItemLines(items[0]), ItemRun(items[1..]);
    ItemRunCons(items, head, tail);
    assert (head + tail) + rest == head + (tail + rest);
    MoreNotDetail(items[1..], rest, more);
  }

  /** A rendered item under its block's field is appended to its list as it was written. */
  lemma ItemLaidStep(lines: seq<string>, p: nat, q: nat, it: Item, rest: seq<string>, d: Draft, opt: bool, d1: Draft)
    requires p <= |lines| && lines[p..] == ItemLines(it) + rest && q == p + |ItemLines(it)|
    requires rest != [] && !IsDetailLine(rest[0])
    requires d.field == ListField(opt) && CanonicalItem(it, |ListOf(d, opt)| + 1)
    requires d1 == WithList(d, opt, ListOf(d, opt) + [it])
    ensures Reads(lines, p, d, q, d1)
  {
    ItemAtOfLayout(lines, p, q, it, rest);
    ItemStepAt(lines, p, q, it, d, opt, d1);
  }

  lemma ItemRunLength(p: nat, q: nat, e: nat, items: seq<Item>)
    requires items != [] && e == p + |ItemRun(items)| && q == p + |ItemLines(items[0])|
    ensures e == q + |ItemRun(items[1..])|
  {}

  /** The draft after the first item of a list, and what remains to be appended. */
  lemma NumberingStep(items: seq<Item>, d: Draft, opt: bool, d1: Draft, d': Draft)
    requires items != [] && NumberedFrom(items, |ListOf(d, opt)| + 1)
    requires d1 == WithList(d, opt, ListOf(d, opt) + [items[0]])
    requires d' == WithList(d, opt, ListOf(d, opt) + items)
    ensures CanonicalItem(items[0], |ListOf(d, opt)| + 1)
    ensures d1.field == d.field && NumberedFrom(items[1..], |ListOf(d1, opt)| + 1)
    ensures d' == WithList(d1, opt, ListOf(d1, opt) + items[1..])
  {
    assert ListOf(d1, opt) == ListOf(d, opt) + [items[0]];
    assert ListOf(d1, opt) + items[1..] == ListOf(d, opt) + items;
  }

  /** The item lines of a block, from line `p` to line `e`, are read as the items that
    * were written, in order: `d'` is `d` with the items appended to its list. */
  lemma {:induction false} ItemsStep(lines: seq<string>, p: nat, e: nat, items: seq<Item>, rest: seq<string>,
                                     d: Draft, opt: bool, d': Draft)
    requires p <= |lines| && lines[p..] == ItemRun(items) + rest && e == p + |ItemRun(items)|
    requires rest != [] && !IsDetailLine(rest[0])
    requires d.field == ListField(opt) && NumberedFrom(items, |ListOf(d, opt)| + 1)
    requires d' == WithList(d, opt, ListOf(d, opt) + items)
    ensures Reads(lines, p, d, e, d')
    decreases |items|
  {
    if items == [] {
      assert ListOf(d, opt) + items == ListOf(d, opt);
    } else {
      var q := p + |ItemLines(items[0])|;
      var d1 := WithList(d, opt, ListOf(d, opt) + [items[0]]);
      var more := ItemRun(items[1..]) + rest;
      ItemRunHead(lines, p, items, rest, more);
      NumberingStep(items, d, opt, d1, d');
      ItemLaidStep(lines, p, q, items[0], more, d, opt, d1);
      SuffixDrop(lines, p, ItemLines(items[0]), more);
      ItemRunLength(p, q, e, items);
      ItemsStep(lines, q, e, items[1..], rest, d1, opt, d');
      ReadsTrans(lines, p, d, q, d1, e, d');
    }
  }

  // ---------------------------------------------------------------------------------
  // Reading back one section

  /** A block marker line switches to its list's field. */
  lemma MarkerSets(lines: seq<string>, p: nat, d: Draft, opt: bool)
    requires p < |lines| && lines[p] == ListMarker(opt)
    ensures Reads(lines, p, d, p + 1, d.(field := ListField(opt)))
  {
    var line := lines[p];
    assert StartsWith(line, ListMarker(opt));
    DiffersAt(line, Header, 0);
    DiffersAt(line, DescriptionMarker, 2);
    DiffersAt(line, StatusMarker, 2);
    if opt {
      DiffersAt(line, IssuesMarker, 2);
    }
  }

  lemma LineOfSuffix(lines: seq<string>, p: nat, x: seq<string>, k: nat)
    requires p <= |lines| && k < |x| <= |lines| - p && lines[p..][..|x|] == x
    ensures p + k < |lines| && lines[p + k] == x[k]
  {
    assert lines[p..][k] == lines[p + k];
  }

  /** The five lines after a header: the description and the status are read back. */
  lemma HeadReads(lines: seq<string>, p: nat, s: Section, d': Draft)
    requires p <= |lines| && |lines[p..]| >= 5 && lines[p..][..5] == HeadLines(s)
    requires IsTrimmed(s.description) && IsTrimmed(s.status)
    requires d' == EmptyDraft.(field := StatusField, description := s.description, status := s.status)
    ensures Reads(lines, p, EmptyDraft, p + 5, d')
  {
    var h := HeadLines(s);
    var d1 := EmptyDraft.(field := DescriptionField, description := s.description);
    LineOfSuffix(lines, p, h, 0);
    LineOfSuffix(lines, p, h, 1);
    LineOfSuffix(lines, p, h, 2);
    LineOfSuffix(lines, p, h, 3);
    LineOfSuffix(lines, p, h, 4);
    BlankLineSkipped(lines, p, EmptyDraft);
    DescriptionLineSets(lines, p + 1, EmptyDraft, s.description);
    ReadsTrans(lines, p, EmptyDraft, p + 1, EmptyDraft, p + 2, d1);
    BlankLineSkipped(lines, p + 2, d1);
    ReadsTrans(lines, p, EmptyDraft, p + 2, d1, p + 3, d1);
    StatusLineSets(lines, p + 3, d1, s.status);
    ReadsTrans(lines, p, EmptyDraft, p + 3, d1, p + 4, d');
    BlankLineSkipped(lines, p + 4, d');
    ReadsTrans(lines, p, EmptyDraft, p + 4, d', p + 5, d');
  }

  /** A list numbered 1, 2, 3, ... as `parse` numbers it, from position `j` on. */
  lemma {:induction false} CanonicalNumbered(items: seq<Item>, j: nat)
    requires CanonicalItems(items) && j <= |items|
    ensures NumberedFrom(items[j..], j + 1)
    decreases |items| - j
  {
    if j < |items| {
      CanonicalNumbered(items, j + 1);
      assert items[j..][1..] == items[j + 1..];
    }
  }

  /** The draft after an issues or options block. */
  function BlockDraft(d: Draft, opt: bool, items: seq<Item>): Draft {
    if items == [] then d else WithList(d.(field := ListField(opt)), opt, items)
  }

  /** The block of a list ends with a blank line. */
  lemma BlockShape(marker: string, items: seq<Item>, body: seq<string>)
    requires items != [] && body == ItemRun(items)
    ensures BlockLines(marker, items) == [marker] + body + [""]
  {
    ItemsLinesIsRun(items, |items|);
    assert items[..|items|] == items;
  }

  /** The lines of a non-empty block after its marker line: the items, then the blank line. */
  lemma BlockItemsRead(lines: seq<string>, p: nat, q: nat, e: nat, opt: bool, items: seq<Item>, body: seq<string>,
                       after: seq<string>, d1: Draft, d': Draft)
    requires p <= |lines| && body == ItemRun(items) && lines[p..] == body + after
    requires after != [] && after[0] == "" && q == p + |body| && e == q + 1
    requires d1.field == ListField(opt) && ListOf(d1, opt) == [] && CanonicalItems(items)
    requires d' == WithList(d1, opt, items)
    ensures Reads(lines, p, d1, e, d')
  {
    CanonicalNumbered(items, 0);
    assert items[0..] == items;
    assert ListOf(d1, opt) + items == items;
    ItemsStep(lines, p, q, items, after, d1, opt, d');
    SuffixDrop(lines, p, body, after);
    assert lines[q] == "" by { assert lines[q..][0] == lines[q]; }
    BlankLineSkipped(lines, q, d');
    ReadsTrans(lines, p, d1, q, d', e, d');
  }

  /** Where the parts of a non-empty block lie. */
  lemma BlockLayout(lines: seq<string>, p: nat, e: nat, opt: bool, items: seq<Item>, rest: seq<string>,
                    body: seq<string>, after: seq<string>)
    requires p <= |lines| && lines[p..] == BlockLines(ListMarker(opt), items) + rest
    requires e == p + |BlockLines(ListMarker(opt), items)|
    requires items != [] && body == ItemRun(items) && after == [""] + rest
    ensures p < |lines| && lines[p] == ListMarker(opt)
    ensures lines[p + 1..] == body + after && e == p + 1 + |body| + 1
  {
    BlockShape(ListMarker(opt), items, body);
    assert lines[p..] == [ListMarker(opt)] + (body + after);
    assert lines[p..][0] == lines[p];
    SuffixDrop(lines, p, [ListMarker(opt)], body + after);
  }

  /** An issues or options block, from line `p` to line `e`, is read as its list. */
  lemma BlockReads(lines: seq<string>, p: nat, e: nat, opt: bool, items: seq<Item>, rest: seq<string>, d: Draft, d': Draft)
    requires p <= |lines| && lines[p..] == BlockLines(ListMarker(opt), items) + rest
    requires e == p + |BlockLines(ListMarker(opt), items)|
    requires CanonicalItems(items) && ListOf(d, opt) == []
    requires d' == BlockDraft(d, opt, items)
    ensures Reads(lines, p, d, e, d')
  {
    if items != [] {
      var body := ItemRun(items);
      var d1 := d.(field := ListField(opt));
      var after := [""] + rest;
      BlockLayout(lines, p, e, opt, items, rest, body, after);
      MarkerSets(lines, p, d, opt);
      BlockItemsRead(lines, p + 1, p + 1 + |body|, e, opt, items, body, after, d1, d');
      ReadsTrans(lines, p, d, p + 1, d1, e, d');
    }
  }

  /** Where the resolution line lies, and what follows it. */
  lemma TailLayout(lines: seq<string>, p: nat, e: nat, s: Section, last: bool, rest: seq<string>)
    requires p <= |lines| && lines[p..] == TailLines(s, last) + rest && e == p + |TailLines(s, last)|
    requires last ==> rest == []
    requires !last ==> rest != [] && IsHeader(rest[0])
    ensures p < |lines| && (lines[p] == ResolutionLine(s.resolution) || lines[p] == LastResolutionLine(s.resolution))
    ensures last ==> e == p + 1 == |lines|
    ensures !last ==> e == p + 2 < |lines| && lines[p + 1] == "" && IsHeader(lines[e])
  {
    assert lines[p..][0] == lines[p];
    if !last {
      assert lines[p..][1] == lines[p + 1];
      assert lines[p..][2] == lines[p + 2];
    }
  }

  /** The resolution line, and the blank line after it, end the section. */
  lemma TailReads(lines: seq<string>, p: nat, e: nat, s: Section, last: bool, rest: seq<string>, d: Draft, d': Draft)
    requires p <= |lines| && lines[p..] == TailLines(s, last) + rest && e == p + |TailLines(s, last)|
    requires last ==> rest == []
    requires !last ==> rest != [] && IsHeader(rest[0])
    requires IsTrimmed(s.resolution) && d' == d.(field := ResolutionField, resolution := s.resolution)
    ensures e <= |lines| && ParseBody(lines, p, d) == (d', e)
  {
    TailLayout(lines, p, e, s, last, rest);
    ResolutionLineSets(lines, p, d, s.resolution);
    if !last {
      BlankLineSkipped(lines, p + 1, d');
      ReadsTrans(lines, p, d, p + 1, d', e, d');
    }
  }

  /** The draft the inner loop of `parse` ends a section with. */
  function FinalDraft(s: Section): Draft {
    Draft(ResolutionField, s.description, s.status, s.issues, s.options, s.resolution)
  }

  /** The lines of a section between its header and its resolution. */
  function MiddleLines(s: Section): seq<string> {
    HeadLines(s) + BlockLines(IssuesMarker, s.issues) + BlockLines(OptionsMarker, s.options)
  }

  /** Where the description, the two blocks and the resolution of a section lie. */
  lemma ThreeParts(lines: seq<string>, p: nat, h: seq<string>, bi: seq<string>, bo: seq<string>, tail: seq<string>,
                   p3: nat, p4: nat)
    requires p <= |lines| && lines[p..] == h + bi + bo + tail && |h| == 5
    requires p3 == p + 5 + |bi| && p4 == p3 + |bo|
    ensures |lines[p..]| >= 5 && lines[p..][..5] == h
    ensures p + 5 <= |lines| && lines[p + 5..] == bi + (bo + tail)
    ensures p3 <= |lines| && lines[p3..] == bo + tail
    ensures p4 <= |lines| && lines[p4..] == tail
  {
    assert lines[p..] == h + (bi + (bo + tail));
    SuffixDrop(lines, p, h, bi + (bo + tail));
    SuffixDrop(lines, p + 5, bi, bo + tail);
    SuffixDrop(lines, p3, bo, tail);
    assert lines[p..][..5] == h;
  }

  lemma MiddleLayout(lines: seq<string>, p: nat, s: Section, tail: seq<string>, p3: nat, p4: nat)
    requires p <= |lines| && lines[p..] == MiddleLines(s) + tail
    requires p3 == p + 5 + |BlockLines(IssuesMarker, s.issues)|
    requires p4 == p3 + |BlockLines(OptionsMarker, s.options)|
    ensures |lines[p..]| >= 5 && lines[p..][..5] == HeadLines(s)
    ensures p + 5 <= |lines| && lines[p + 5..] == BlockLines(IssuesMarker, s.issues) + (BlockLines(OptionsMarker, s.options) + tail)
    ensures p3 <= |lines| && lines[p3..] == BlockLines(OptionsMarker, s.options) + tail
    ensures p4 <= |lines| && lines[p4..] == tail
  {
    ThreeParts(lines, p, HeadLines(s), BlockLines(IssuesMarker, s.issues), BlockLines(OptionsMarker, s.options), tail, p3, p4);
  }

  lemma MiddleReads(lines: seq<string>, p: nat, p4: nat, s: Section, tail: seq<string>, dm: Draft)
    requires p <= |lines| && lines[p..] == MiddleLines(s) + tail
    requires p4 == p + |MiddleLines(s)|
    requires IsTrimmed(s.description) && IsTrimmed(s.status)
    requires CanonicalItems(s.issues) && CanonicalItems(s.options)
    requires dm == BlockDraft(BlockDraft(EmptyDraft.(field := StatusField, description := s.description, status := s.status),
                                         false, s.issues), true, s.options)
    ensures Reads(lines, p, EmptyDraft, p4, dm)
  {
    var dh := EmptyDraft.(field := StatusField, description := s.description, status := s.status);
    var di := BlockDraft(dh, false, s.issues);
    var p3 := p + 5 + |BlockLines(IssuesMarker, s.issues)|;
    MiddleLayout(lines, p, s, tail, p3, p4);
    HeadReads(lines, p, s, dh);
    BlockReads(lines, p + 5, p3, false, s.issues, BlockLines(OptionsMarker, s.options) + tail, dh, di);
    ReadsTrans(lines, p, EmptyDraft, p + 5, dh, p3, di);
    BlockReads(lines, p3, p4, true, s.options, tail, di, dm);
    ReadsTrans(lines, p, EmptyDraft, p3, di, p4, dm);
  }

  /** The draft after the blocks, once the resolution is read, holds the whole section. */
  lemma FinalDraftOf(s: Section, dm: Draft)
    requires dm == BlockDraft(BlockDraft(EmptyDraft.(field := StatusField, description := s.description, status := s.status),
                                         false, s.issues), true, s.options)
    ensures dm.(field := ResolutionField, resolution := s.resolution) == FinalDraft(s)
  {}

  /** The body of a section, from the line after its header to the next header or the end. */
  lemma TwoParts(lines: seq<string>, p: nat, x: seq<string>, y: seq<string>, rest: seq<string>, q: nat)
    requires p <= |lines| && lines[p..] == x + y + rest && q == p + |x|
    ensures lines[p..] == x + (y + rest)
    ensures q <= |lines| && lines[q..] == y + rest
  {
    SuffixDrop(lines, p, x, y + rest);
  }

  lemma BodyReads(lines: seq<string>, p: nat, e: nat, s: Section, last: bool, rest: seq<string>)
    requires p <= |lines| && lines[p..] == MiddleLines(s) + TailLines(s, last) + rest
    requires e == p + |MiddleLines(s)| + |TailLines(s, last)|
    requires last ==> rest == []
    requires !last ==> rest != [] && IsHeader(rest[0])
    requires IsTrimmed(s.description) && IsTrimmed(s.status) && IsTrimmed(s.resolution)
    requires CanonicalItems(s.issues) && CanonicalItems(s.options)
    ensures ParseBody(lines, p, EmptyDraft) == (FinalDraft(s), e)
  {
    var dm := BlockDraft(BlockDraft(EmptyDraft.(field := StatusField, description := s.description, status := s.status),
                                    false, s.issues), true, s.options);
    var p4 := p + |MiddleLines(s)|;
    var tail := TailLines(s, last) + rest;
    TwoParts(lines, p, MiddleLines(s), TailLines(s, last), rest, p4);
    MiddleReads(lines, p, p4, s, tail, dm);
    FinalDraftOf(s, dm);
    TailReads(lines, p4, e, s, last, rest, dm, FinalDraft(s));
  }

  /** The first line of `lines[i..]`, and the ones after it. */
  lemma ConsLayout(lines: seq<string>, i: nat, h: string, body: seq<string>)
    requires i <= |lines| && lines[i..] == [h] + body
    ensures i < |lines| && lines[i] == h && lines[i + 1..] == body
  {
    assert lines[i..][0] == lines[i];
    assert lines[i..][1..] == lines[i + 1..];
  }

  lemma SectionShape(key: string, s: Section, last: bool)
    ensures SectionLines(key, s, last) == [Header + key] + (MiddleLines(s) + TailLines(s, last))
  {}

  /** Where the header and the body of a section lie. */
  lemma SectionLayout(lines: seq<string>, i: nat, key: string, s: Section, last: bool, rest: seq<string>)
    requires i <= |lines| && lines[i..] == SectionLines(key, s, last) + rest
    ensures i < |lines| && lines[i] == Header + key
    ensures lines[i + 1..] == MiddleLines(s) + TailLines(s, last) + rest
  {
    var m, t := MiddleLines(s), TailLines(s, last);
    SectionShape(key, s, last);
    assert lines[i..] == [Header + key] + (m + t + rest);
    ConsLayout(lines, i, Header + key, m + t + rest);
  }

  lemma SectionLength(key: string, s: Section, last: bool)
    ensures |SectionLines(key, s, last)| == 1 + |MiddleLines(s)| + |TailLines(s, last)|
  {}

  /** The outer loop of `parse` goes from line `i` with the sections `acc` to line `e` with
    * the sections `acc'` and continues from there as if it had started there. */
  predicate Stores(lines: seq<string>, i: nat, acc: Sections, e: nat, acc': Sections) {
    i <= e <= |lines| && acc.Valid() && acc'.Valid() && ParseFrom(lines, i, acc) == ParseFrom(lines, e, acc')
  }

  /** A header line for `key` whose body the inner loop reads as `d`, up to line `k`. */
  lemma HeaderStep(lines: seq<string>, i: nat, acc: Sections, key: string, d: Draft, k: nat)
    requires i < |lines| && IsHeader(lines[i]) && HeaderKey(lines[i]) == key && acc.Valid()
    requires ParseBody(lines, i + 1, EmptyDraft) == (d, k)
    ensures ParseFrom(lines, i, acc) == ParseFrom(lines, k, Put(acc, key, FinishSection(key, d)))
  {}

  /** A header line written for a one-line trimmed key gives the key back. */
  lemma HeaderKeyOf(key: string)
    requires IsTrimmed(key)
    ensures IsHeader(Header + key) && HeaderKey(Header + key) == key
  {
    StartsWithAppend(Header, key);
    assert (Header + key)[|Header|..] == key;
    TrimOfTrimmed(key);
  }

  /** The section `parse` finishes with the final draft is the one that was written. */
  lemma FinishFinal(key: string, s: Section)
    requires CanonicalSection(key, s)
    ensures FinishSection(key, FinalDraft(s)) == s
  {
    TrimOfTrimmed(s.description);
    TrimOfTrimmed(s.resolution);
  }

  /** The outer loop of `parse` reads one written section, from line `i` to line `e`, and
    * stores it under its key. */
  lemma SectionParses(lines: seq<string>, i: nat, e: nat, key: string, s: Section, last: bool, rest: seq<string>, acc: Sections)
    requires i <= |lines| && lines[i..] == SectionLines(key, s, last) + rest
    requires e == i + |SectionLines(key, s, last)|
    requires last ==> rest == []
    requires !last ==> rest != [] && IsHeader(rest[0])
    requires CanonicalSection(key, s) && acc.Valid()
    ensures Stores(lines, i, acc, e, Put(acc, key, s))
  {
    SectionLayout(lines, i, key, s, last, rest);
    SectionLength(key, s, last);
    HeaderKeyOf(key);
    BodyReads(lines, i + 1, e, s, last, rest);
    FinishFinal(key, s);
    HeaderStep(lines, i, acc, key, FinalDraft(s), e);
  }

  // ---------------------------------------------------------------------------------
  // Reading back every section

  /** The lines of a sequence of blocks, one after the other. */
  function Concat(bs: seq<seq<string>>): seq<string>
    decreases |bs|
  {
    if bs == [] then [] else bs[0] + Concat(bs[1..])
  }

  lemma {:induction false} ConcatAppend(a: seq<seq<string>>, b: seq<seq<string>>)
    ensures Concat(a + b) == Concat(a) + Concat(b)
    decreases |a|
  {
    if a != [] {
      assert (a + b)[0] == a[0];
      assert (a + b)[1..] == a[1..] + b;
      ConcatAppend(a[1..], b);
    } else {
      assert a + b == b;
    }
  }

  lemma ConcatOne(b: seq<string>)
    ensures Concat([b]) == b
  {
    assert [b][1..] == [];
  }

  /** The written blocks of the sections, in key order, the last one as the final
    * `trim()` leaves it. */
  function Blocks(m: Sections): (bs: seq<seq<string>>)
    requires m.Valid()
    ensures |bs| == |m.keys|
  {
    seq(|m.keys|, i requires 0 <= i < |m.keys| => SectionLines(m.keys[i], m.table[m.keys[i]], i == |m.keys| - 1))
  }

  /** The lines of the sections from the `n`-th on. */
  function LinesFrom(m: Sections, n: nat): seq<string>
    requires m.Valid() && n <= |m.keys|
  {
    Concat(Blocks(m)[n..])
  }

  lemma BlockAt(m: Sections, i: nat)
    requires m.Valid() && i < |m.keys|
    ensures Blocks(m)[i] == SectionLines(m.keys[i], m.table[m.keys[i]], i == |m.keys| - 1)
  {}

  lemma ConcatSnoc(bs: seq<seq<string>>, n: nat, c: seq<string>, b: seq<string>)
    requires 0 < n <= |bs| && c == Concat(bs[..n - 1]) && b == bs[n - 1]
    ensures Concat(bs[..n]) == c + b
  {
    assert bs[..n] == bs[..n - 1] + [b];
    ConcatAppend(bs[..n - 1], [b]);
    ConcatOne(b);
  }

  /** The first `n` sections, none of them the last, are the first `n` blocks. */
  lemma {:induction false} AllLinesBlocks(m: Sections, n: nat)
    requires m.Valid() && n < |m.keys|
    ensures AllLines(m, n) == Concat(Blocks(m)[..n])
    decreases n
  {
    if n > 0 {
      AllLinesBlocks(m, n - 1);
      BlockAt(m, n - 1);
      ConcatSnoc(Blocks(m), n, AllLines(m, n - 1), Blocks(m)[n - 1]);
    } else {
      assert Blocks(m)[..0] == [];
    }
  }

  lemma RenderedLinesFrom(m: Sections)
    requires m.Valid() && |m.keys| > 0
    ensures RenderedLines(m) == LinesFrom(m, 0)
  {
    var n := |m.keys| - 1;
    var bs := Blocks(m);
    AllLinesBlocks(m, n);
    assert bs == bs[..n] + [bs[n]];
    ConcatAppend(bs[..n], [bs[n]]);
    ConcatOne(bs[n]);
    assert bs[0..] == bs;
  }

  /** The lines after the `n`-th section start with the next header, if any. */
  lemma NextIsHeader(m: Sections, n: nat)
    requires m.Valid() && n < |m.keys| - 1
    ensures LinesFrom(m, n + 1) != [] && IsHeader(LinesFrom(m, n + 1)[0])
  {
    var k := m.keys[n + 1];
    StartsWithAppend(Header, k);
    LinesFromHead(m, n + 1, k, m.table[k], n + 1 == |m.keys| - 1);
    assert LinesFrom(m, n + 1)[0] == SectionLines(k, m.table[k], n + 1 == |m.keys| - 1)[0];
  }

  lemma LinesFromHead(m: Sections, n: nat, k: string, sec: Section, last: bool)
    requires m.Valid() && n < |m.keys| && k == m.keys[n] && sec == m.table[k] && last == (n == |m.keys| - 1)
    ensures LinesFrom(m, n) == SectionLines(k, sec, last) + LinesFrom(m, n + 1)
  {
    var bs := Blocks(m);
    assert bs[n..][1..] == bs[n + 1..];
  }

  /** What follows the `n`-th section: nothing after the last one, a header otherwise. */
  lemma AfterSection(m: Sections, n: nat, last: bool, rest: seq<string>)
    requires m.Valid() && n < |m.keys| && last == (n == |m.keys| - 1) && rest == LinesFrom(m, n + 1)
    ensures last ==> rest == []
    ensures !last ==> rest != [] && IsHeader(rest[0])
  {
    if !last {
      NextIsHeader(m, n);
    }
  }

  /** One section of the lines from the `n`-th on, from line `i` to line `e`. */
  lemma ParseSectionStep(lines: seq<string>, i: nat, e: nat, m: Sections, n: nat, k: string, sec: Section, last: bool,
                         rest: seq<string>, acc: Sections)
    requires m.Valid() && n < |m.keys| && acc.Valid() && k == m.keys[n] && sec == m.table[k]
    requires last == (n == |m.keys| - 1) && CanonicalSection(k, sec) && rest == LinesFrom(m, n + 1)
    requires i <= |lines| && lines[i..] == LinesFrom(m, n)
    requires e == i + |SectionLines(k, sec, last)|
    ensures e <= |lines| && lines[e..] == rest
    ensures Stores(lines, i, acc, e, Put(acc, k, sec))
  {
    AfterSection(m, n, last, rest);
    LinesFromHead(m, n, k, sec, last);
    SuffixAt(lines, i, e, SectionLines(k, sec, last), rest);
    SectionParses(lines, i, e, k, sec, last, rest, acc);
  }

  /** Parsing the lines of the sections from the `n`-th on adds them in order. */
  lemma {:induction false} ParseSections(lines: seq<string>, i: nat, m: Sections, n: nat, acc: Sections)
    requires Canonical(m) && n <= |m.keys| && acc.Valid()
    requires i <= |lines| && lines[i..] == LinesFrom(m, n)
    ensures ParseFrom(lines, i, acc) == PutAll(acc, m.keys[n..], m.table)
    decreases |m.keys| - n
  {
    if n == |m.keys| {
      assert m.keys[n..] == [];
    } else {
      var k := m.keys[n];
      var sec := m.table[k];
      var last := n == |m.keys| - 1;
      var e := i + |SectionLines(k, sec, last)|;
      var acc' := Put(acc, k, sec);
      assert CanonicalSection(k, sec);
      ParseSectionStep(lines, i, e, m, n, k, sec, last, LinesFrom(m, n + 1), acc);
      ParseSections(lines, e, m, n + 1, acc');
      assert m.keys[n..][1..] == m.keys[n + 1..];
    }
  }

  // ---------------------------------------------------------------------------------
  // The rendered text is the lines joined by newlines

  /** No line contains the newline `split('\n')` cuts at. */
  predicate NoNewlines(ls: seq<string>) {
    forall i :: 0 <= i < |ls| ==> '\n' !in ls[i]
  }

  lemma NoNewlinesConcat(a: seq<string>, b: seq<string>)
    requires NoNewlines(a) && NoNewlines(b)
    ensures NoNewlines(a + b)
  {
    forall i | 0 <= i < |a + b|
      ensures '\n' !in (a + b)[i]
    {
      if i < |a| {
        assert (a + b)[i] == a[i];
      } else {
        assert (a + b)[i] == b[i - |a|];
      }
    }
  }

  lemma OneLineNoNewline(s: string)
    requires NoLineTerminator(s)
    ensures '\n' !in s
  {}

  lemma ItemLinesNoNewlines(it: Item)
    requires OneLineTrimmed(it.title) && OneLineTrimmed(it.details)
    ensures NoNewlines(ItemLines(it))
  {
    var ds := NatToString(it.id);
    assert ItemLine(it) == ds + ". " + it.title;
  }

  lemma {:induction false} ItemsLinesNoNewlines(items: seq<Item>, j: nat)
    requires CanonicalItems(items) && j <= |items|
    ensures NoNewlines(ItemsLines(items, j))
    decreases j
  {
    if j > 0 {
      ItemsLinesNoNewlines(items, j - 1);
      assert CanonicalItem(items[j - 1], j);
      ItemLinesNoNewlines(items[j - 1]);
      NoNewlinesConcat(ItemsLines(items, j - 1), ItemLines(items[j - 1]));
    }
  }

  lemma BlockLinesNoNewlines(marker: string, items: seq<Item>)
    requires CanonicalItems(items) && '\n' !in marker
    ensures NoNewlines(BlockLines(marker, items))
  {
    if |items| > 0 {
      ItemsLinesNoNewlines(items, |items|);
      NoNewlinesConcat([marker], ItemsLines(items, |items|));
      NoNewlinesConcat([marker] + ItemsLines(items, |items|), [""]);
    }
  }

  lemma HeadNoNewlines(key: string, s: Section)
    requires '\n' !in key && '\n' !in s.description && '\n' !in s.status
    ensures NoNewlines([Header + key] + HeadLines(s))
  {
    var ls := [Header + key] + HeadLines(s);
    assert ls == [Header + key, "", DescriptionLine(s.description), "", StatusLine(s.status), ""];
  }

  lemma TailNoNewlines(s: Section, last: bool)
    requires '\n' !in s.resolution
    ensures NoNewlines(TailLines(s, last))
  {}

  lemma MarkersNoNewline()
    ensures '\n' !in IssuesMarker && '\n' !in OptionsMarker
  {}

  lemma SectionLinesNoNewlines(key: string, s: Section, last: bool)
    requires CanonicalSection(key, s)
    ensures NoNewlines(SectionLines(key, s, last))
  {
    OneLineNoNewline(key);
    OneLineNoNewline(s.description);
    OneLineNoNewline(s.status);
    OneLineNoNewline(s.resolution);
    var bi, bo := BlockLines(IssuesMarker, s.issues), BlockLines(OptionsMarker, s.options);
    MarkersNoNewline();
    BlockLinesNoNewlines(IssuesMarker, s.issues);
    BlockLinesNoNewlines(OptionsMarker, s.options);
    HeadNoNewlines(key, s);
    NoNewlinesConcat([Header + key] + HeadLines(s), bi);
    NoNewlinesConcat([Header + key] + HeadLines(s) + bi, bo);
    TailNoNewlines(s, last);
    NoNewlinesConcat([Header + key] + HeadLines(s) + bi + bo, TailLines(s, last));
  }

  lemma {:induction false} LinesFromNoNewlines(m: Sections, n: nat)
    requires Canonical(m) && n <= |m.keys|
    ensures NoNewlines(LinesFrom(m, n))
    decreases |m.keys| - n
  {
    if n < |m.keys| {
      var k := m.keys[n];
      var last := n == |m.keys| - 1;
      LinesFromNoNewlines(m, n + 1);
      SectionLinesNoNewlines(k, m.table[k], last);
      LinesFromHead(m, n, k, m.table[k], last);
      NoNewlinesConcat(SectionLines(k, m.table[k], last), LinesFrom(m, n + 1));
    } else {
      assert Blocks(m)[n..] == [];
    }
  }

  /** The first line written is the first header. */
  lemma {:induction false} AllLinesFirst(m: Sections, n: nat)
    requires m.Valid() && 0 < n <= |m.keys|
    ensures AllLines(m, n) != [] && AllLines(m, n)[0] == Header + m.keys[0]
    decreases n
  {
    if n > 1 {
      AllLinesFirst(m, n - 1);
    }
  }

  /** A section without its resolution line. */
  function OpenLines(key: string, s: Section): seq<string> {
    [Header + key] + HeadLines(s) + BlockLines(IssuesMarker, s.issues) + BlockLines(OptionsMarker, s.options)
  }

  lemma TerminatedPair(a: string)
    ensures Terminated([a, ""]) == a + "\n\n"
  {
    assert [a, ""][1..] == [""];
    assert Terminated([""]) == "" + "\n" + Terminated([]);
  }

  lemma SectionOpen(key: string, s: Section, last: bool)
    ensures SectionLines(key, s, last) == OpenLines(key, s) + TailLines(s, last)
  {}

  /** The last section splits into its open lines and its resolution line. */
  lemma LastSectionLines(m: Sections, k: string, sec: Section, x: seq<string>)
    requires m.Valid() && |m.keys| > 0 && k == m.keys[|m.keys| - 1] && sec == m.table[k]
    requires x == AllLines(m, |m.keys| - 1) + OpenLines(k, sec)
    ensures RenderedLines(m) == x + [LastResolutionLine(sec.resolution)]
  {
    SectionOpen(k, sec, true);
  }

  lemma LastSectionWritten(m: Sections, k: string, sec: Section, x: seq<string>)
    requires m.Valid() && |m.keys| > 0 && k == m.keys[|m.keys| - 1] && sec == m.table[k]
    requires x == AllLines(m, |m.keys| - 1) + OpenLines(k, sec)
    ensures AllLines(m, |m.keys|) == x + [ResolutionLine(sec.resolution), ""]
  {
    SectionOpen(k, sec, false);
  }

  /** The resolution line with its newlines is the last line and the padding `trim()` removes. */
  lemma ResolutionPadding(r: string, w: string)
    requires w == if r == "" then " \n\n" else "\n\n"
    ensures ResolutionLine(r) + "\n\n" == LastResolutionLine(r) + w
  {}

  lemma Regroup(t: string, a: string, w: string, z: string)
    requires z == t + (a + w)
    ensures z == "" + (t + a) + w
  {}

  /** The text `render` builds is the rendered lines, each with a newline, and the last
    * resolution line followed by the blank space that `trim()` removes. */
  lemma RawTextIsJoin(m: Sections, x: seq<string>, r: string, w: string)
    requires m.Valid() && |m.keys| > 0
    requires AllLines(m, |m.keys|) == x + [ResolutionLine(r), ""]
    requires w == if r == "" then " \n\n" else "\n\n"
    ensures RawText(m, |m.keys|) == "" + (Terminated(x) + LastResolutionLine(r)) + w
  {
    var n := |m.keys|;
    var all := AllLines(m, n);
    var t := Terminated(x);
    RawTextIsLines(m, n);
    AppendLinesTerminated("", all);
    assert RawText(m, n) == "" + Terminated(all);
    TerminatedAppend(x, [ResolutionLine(r), ""]);
    TerminatedPair(ResolutionLine(r));
    ResolutionPadding(r, w);
    assert Terminated(all) == t + (LastResolutionLine(r) + w);
    Regroup(t, LastResolutionLine(r), w, "" + Terminated(all));
  }

  /** Lines starting with `#` and ending in a non-space character, joined, are trimmed. */
  lemma JoinedTrimmed(x: seq<string>, last: string)
    requires x != [] && x[0] != [] && x[0][0] == '#'
    requires last != [] && !IsSpace(last[|last| - 1])
    ensures IsTrimmed(Terminated(x) + last)
  {
    assert Terminated(x) == x[0] + "\n" + Terminated(x[1..]);
  }

  /** The last line of the text ends in a non-space character. */
  lemma LastLineEnd(r: string)
    requires IsTrimmed(r)
    ensures LastResolutionLine(r) != [] && !IsSpace(LastResolutionLine(r)[|LastResolutionLine(r)| - 1])
  {
    if r != "" {
      assert ResolutionLine(r)[|ResolutionLine(r)| - 1] == r[|r| - 1];
    }
  }

  /** The first line of the text is the first header. */
  lemma FirstLineHeader(m: Sections, k: string, sec: Section, x: seq<string>)
    requires m.Valid() && |m.keys| > 0 && k == m.keys[|m.keys| - 1] && sec == m.table[k]
    requires x == AllLines(m, |m.keys| - 1) + OpenLines(k, sec)
    ensures x != [] && x[0] != [] && x[0][0] == '#'
  {
    var n := |m.keys|;
    if n > 1 {
      AllLinesFirst(m, n - 1);
    }
    assert x[0] == Header + m.keys[0];
  }

  lemma PaddingIsSpace(w: string, r: string)
    requires w == if r == "" then " \n\n" else "\n\n"
    ensures AllSpace(w)
  {
    assert IsSpace(' ') && IsSpace('\n');
  }

  /** `render` writes the rendered lines joined by newlines. */
  lemma RenderedIsJoin(m: Sections)
    requires m.Valid() && |m.keys| > 0 && IsTrimmed(m.table[m.keys[|m.keys| - 1]].resolution)
    ensures Rendered(m) == Join(RenderedLines(m), "\n")
  {
    var n := |m.keys|;
    var k := m.keys[n - 1];
    var s := m.table[k];
    var x := AllLines(m, n - 1) + OpenLines(k, s);
    var last := LastResolutionLine(s.resolution);
    var w := if s.resolution == "" then " \n\n" else "\n\n";
    LastSectionLines(m, k, s, x);
    LastSectionWritten(m, k, s, x);
    RawTextIsJoin(m, x, s.resolution, w);
    JoinAsTerminated(x, last);
    LastLineEnd(s.resolution);
    FirstLineHeader(m, k, s, x);
    JoinedTrimmed(x, last);
    PaddingIsSpace(w, s.resolution);
    TrimOfTrimmedPadding("", Terminated(x) + last, w);
  }

  // ---------------------------------------------------------------------------------
  // The round trip

  /** Parsing what `render` writes gives back the sections it was given, for sections
    * written in the form `parse` reads back (`Canonical`). */
  lemma RoundTrip(m: Sections)
    requires Canonical(m)
    ensures Parsed(Rendered(m)) == m
  {
    if |m.keys| == 0 {
      assert m.table == map[];
      assert Split("", '\n') == [""];
      assert ParseFrom([""], 1, Empty()) == Empty();
    } else {
      var lines := RenderedLines(m);
      assert CanonicalSection(m.keys[|m.keys| - 1], m.table[m.keys[|m.keys| - 1]]);
      RenderedIsJoin(m);
      RenderedLinesFrom(m);
      LinesFromNoNewlines(m, 0);
      assert "\n" == ['\n'];
      SplitJoin(lines, '\n');
      assert lines[0..] == lines;
      ParseSections(lines, 0, m, 0, Empty());
      assert m.keys[0..] == m.keys;
      RebuildFromEmpty(m);
    }
  }
}
