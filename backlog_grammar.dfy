/** What `parse` of `src/BacklogManager/backlogIO.mjs` makes of any text, well-formed or
  * not: which keys it finds and in which order, which section ends up under each key,
  * how items are numbered and how field lines continue.
  *
  * - A section's body runs from its header to the next header line (`BodyEndsAtNextHeader`),
  *   so lines before the first header belong to no section (`PreambleIgnored`).
  * - The keys are the trimmed remainders of the header lines, in order of first appearance
  *   (`ParsedKeys`); a key that comes back keeps its first place and takes the section of
  *   its last header (`ParsedValues`).
  * - Every stored section is named by its key and its items are numbered 1, 2, 3, ... with
  *   an empty status (`ParsedShape`).
  * - Non-blank lines after `**Description:**` or `**Resolution:**` are joined to it with a
  *   space (`DescriptionContinues`, `ResolutionContinues`); the status keeps its own line
  *   (`StatusKeepsItsLine`). */
module BacklogGrammar {
  import opened Wrappers
  import opened Text
  import opened OrderedMaps
  import opened BacklogIO

  // ---------------------------------------------------------------------------------
  // Where a section's body ends

  /** The first header line at or after `i`, or the number of lines when there is none. */
  function NextHeader(lines: seq<string>, i: nat): (e: nat)
    requires i <= |lines|
    ensures i <= e <= |lines|
    ensures e == |lines| || IsHeader(lines[e])
    ensures forall t :: i <= t < e ==> !IsHeader(lines[t])
    decreases |lines| - i
  {
    if i == |lines| || IsHeader(lines[i]) then i else NextHeader(lines, i + 1)
  }

  /** Without a header line in between, the next header is the same. */
  lemma {:induction false} NextHeaderSkip(lines: seq<string>, i: nat, k: nat)
    requires i <= k <= |lines|
    requires forall t :: i <= t < k ==> !IsHeader(lines[t])
    ensures NextHeader(lines, i) == NextHeader(lines, k)
    decreases k - i
  {
    if i < k {
      NextHeaderSkip(lines, i + 1, k);
    }
  }

  /** An indented detail line never opens a section. */
  lemma DetailNotHeader(line: string)
    requires IsDetailLine(line)
    ensures !IsHeader(line)
  {
    assert Header[0] == '#';
    if StartsWith(line, "   ") {
      assert line[..3][0] == ' ';
    } else {
      assert line[..1][0] == '\t';
    }
  }

  /** One step of the section loop from a line that is not a header reads no header line. */
  lemma BodyStepNoHeader(lines: seq<string>, i: nat, d: Draft)
    requires i < |lines| && !IsHeader(lines[i])
    ensures forall t :: i <= t < BodyStep(lines, i, d).1 ==> !IsHeader(lines[t])
  {
    var line := lines[i];
    if !IsFieldMarkerLine(line) && IsNumberedLine(line)
       && (d.field == IssuesField || d.field == OptionsField) {
      var it := NumberedItemAt(lines, i);
      assert BodyStep(lines, i, d).1 == i + it.consumed;
      if LineTitle(line).Some? {
        var j := i + 1 + DetailRun(lines, i + 1);
        assert i + it.consumed == j;
        forall t | i < t < j
          ensures !IsHeader(lines[t])
        {
          DetailNotHeader(lines[t]);
        }
      }
    }
  }

  /** The body of a section ends at the next header line, or at the end of the text. */
  lemma {:induction false} BodyEndsAtNextHeader(lines: seq<string>, i: nat, d: Draft)
    requires i <= |lines|
    ensures ParseBody(lines, i, d).1 == NextHeader(lines, i)
    decreases |lines| - i
  {
    if i < |lines| && !IsHeader(lines[i]) {
      var (d', k) := BodyStep(lines, i, d);
      BodyStepNoHeader(lines, i, d);
      BodyEndsAtNextHeader(lines, k, d');
      NextHeaderSkip(lines, i, k);
    }
  }

  /** Lines before the first header line belong to no section: the parse from the first
    * line is the parse from the first header. */
  lemma {:induction false} PreambleIgnored(lines: seq<string>, i: nat, acc: Sections)
    requires i <= |lines| && acc.Valid()
    ensures ParseFrom(lines, i, acc) == ParseFrom(lines, NextHeader(lines, i), acc)
    decreases |lines| - i
  {
    if i < |lines| && !IsHeader(lines[i]) {
      PreambleIgnored(lines, i + 1, acc);
    }
  }

  /** A text without a header line parses to no sections at all. */
  lemma NoHeaderNoSections(raw: string)
    requires forall t :: 0 <= t < |Split(raw, '\n')| ==> !IsHeader(Split(raw, '\n')[t])
    ensures Parsed(raw) == Empty()
  {
    var lines := Split(raw, '\n');
    PreambleIgnored(lines, 0, Empty());
  }

  // ---------------------------------------------------------------------------------
  // Keys and their order

  /** The key of every header line from `i` on, in order, repeats included. */
  function HeaderKeys(lines: seq<string>, i: nat): seq<string>
    requires i <= |lines|
    decreases |lines| - i
  {
    if i == |lines| then []
    else if IsHeader(lines[i]) then [HeaderKey(lines[i])] + HeaderKeys(lines, i + 1)
    else HeaderKeys(lines, i + 1)
  }

  /** `keys` followed by each key of `ks` that is not there yet, in order of first
    * appearance. */
  function AddKeys(keys: seq<string>, ks: seq<string>): (r: seq<string>)
    ensures |keys| <= |r| && r[..|keys|] == keys
    ensures forall k :: k in r <==> k in keys || k in ks
    decreases |ks|
  {
    if ks == [] then keys
    else
      var next := if ks[0] in keys then keys else keys + [ks[0]];
      var r := AddKeys(next, ks[1..]);
      assert r[..|keys|] == r[..|next|][..|keys|];
      assert forall k :: k in ks <==> k == ks[0] || k in ks[1..];
      r
  }

  lemma {:induction false} HeaderKeysSkip(lines: seq<string>, i: nat, k: nat)
    requires i <= k <= |lines|
    requires forall t :: i <= t < k ==> !IsHeader(lines[t])
    ensures HeaderKeys(lines, i) == HeaderKeys(lines, k)
    decreases k - i
  {
    if i < k {
      HeaderKeysSkip(lines, i + 1, k);
    }
  }

  /** The keys of the parse are the keys already there, then the key of every header line
    * in order of first appearance: a repeated key keeps the place of its first header. */
  lemma {:induction false} ParsedKeys(lines: seq<string>, i: nat, acc: Sections)
    requires i <= |lines| && acc.Valid()
    ensures ParseFrom(lines, i, acc).keys == AddKeys(acc.keys, HeaderKeys(lines, i))
    decreases |lines| - i
  {
    if i < |lines| {
      if IsHeader(lines[i]) {
        var key := HeaderKey(lines[i]);
        var (d, k) := ParseBody(lines, i + 1, EmptyDraft);
        var acc' := Put(acc, key, FinishSection(key, d));
        BodyEndsAtNextHeader(lines, i + 1, EmptyDraft);
        HeaderKeysSkip(lines, i + 1, k);
        ParsedKeys(lines, k, acc');
        assert key in acc.table <==> key in acc.keys;
        var ks := HeaderKeys(lines, i);
        assert ks == [key] + HeaderKeys(lines, k);
        assert ks[1..] == HeaderKeys(lines, k);
      } else {
        ParsedKeys(lines, i + 1, acc);
      }
    }
  }

  // ---------------------------------------------------------------------------------
  // The section under each key

  /** The section read after the header at line `i`. */
  function SectionAt(lines: seq<string>, i: nat): Section
    requires i < |lines| && IsHeader(lines[i])
  {
    var key := HeaderKey(lines[i]);
    FinishSection(key, ParseBody(lines, i + 1, EmptyDraft).0)
  }

  /** The section of the last header line from `i` on whose key is `key`, if there is one. */
  function LastSection(lines: seq<string>, i: nat, key: string): Option<Section>
    requires i <= |lines|
    decreases |lines| - i
  {
    if i == |lines| then None
    else
      var later := LastSection(lines, i + 1, key);
      if later.Some? then later
      else if IsHeader(lines[i]) && HeaderKey(lines[i]) == key then Some(SectionAt(lines, i))
      else None
  }

  lemma {:induction false} LastSectionSkip(lines: seq<string>, i: nat, k: nat, key: string)
    requires i <= k <= |lines|
    requires forall t :: i <= t < k ==> !IsHeader(lines[t])
    ensures LastSection(lines, i, key) == LastSection(lines, k, key)
    decreases k - i
  {
    if i < k {
      LastSectionSkip(lines, i + 1, k, key);
    }
  }

  /** Each key holds the section of its last header line; a key with no header line keeps
    * what it had. */
  lemma {:induction false} ParsedValues(lines: seq<string>, i: nat, acc: Sections, key: string)
    requires i <= |lines| && acc.Valid()
    ensures Get(ParseFrom(lines, i, acc), key)
            == if LastSection(lines, i, key).Some? then LastSection(lines, i, key) else Get(acc, key)
    decreases |lines| - i
  {
    if i < |lines| {
      if IsHeader(lines[i]) {
        var hk := HeaderKey(lines[i]);
        var (d, k) := ParseBody(lines, i + 1, EmptyDraft);
        var acc' := Put(acc, hk, FinishSection(hk, d));
        BodyEndsAtNextHeader(lines, i + 1, EmptyDraft);
        LastSectionSkip(lines, i + 1, k, key);
        ParsedValues(lines, k, acc', key);
      } else {
        ParsedValues(lines, i + 1, acc, key);
      }
    }
  }

  // ---------------------------------------------------------------------------------
  // Names and numbering

  /** Items numbered 1, 2, 3, ... in list order, each with an empty status. */
  predicate Numbered(items: seq<Item>) {
    forall j :: 0 <= j < |items| ==> items[j].id == j + 1 && items[j].status == ""
  }

  predicate NumberedDraft(d: Draft) {
    Numbered(d.issues) && Numbered(d.options)
  }

  /** Every section is named by its key and has numbered items. */
  predicate AsParsed(m: Sections) {
    forall k :: k in m.table ==>
      m.table[k].name == k && Numbered(m.table[k].issues) && Numbered(m.table[k].options)
  }

  lemma NumberedSnoc(items: seq<Item>, it: NumberedItem)
    requires Numbered(items)
    ensures Numbered(items + [NewItem(it, items)])
  {}

  lemma BodyStepNumbered(lines: seq<string>, i: nat, d: Draft)
    requires i < |lines| && NumberedDraft(d)
    ensures NumberedDraft(BodyStep(lines, i, d).0)
  {
    var line := lines[i];
    if !IsFieldMarkerLine(line) && IsNumberedLine(line) {
      var it := NumberedItemAt(lines, i);
      if d.field == IssuesField {
        NumberedSnoc(d.issues, it);
      } else if d.field == OptionsField {
        NumberedSnoc(d.options, it);
      }
    }
  }

  /** A section's items are renumbered from 1 in the order read, whatever numbers the
    * text gives them. */
  lemma {:induction false} ParseBodyNumbered(lines: seq<string>, i: nat, d: Draft)
    requires i <= |lines| && NumberedDraft(d)
    ensures NumberedDraft(ParseBody(lines, i, d).0)
    decreases |lines| - i
  {
    if i < |lines| && !IsHeader(lines[i]) {
      var (d', k) := BodyStep(lines, i, d);
      BodyStepNumbered(lines, i, d);
      ParseBodyNumbered(lines, k, d');
    }
  }

  lemma PutAsParsed(acc: Sections, key: string, s: Section)
    requires acc.Valid() && AsParsed(acc)
    requires s.name == key && Numbered(s.issues) && Numbered(s.options)
    ensures AsParsed(Put(acc, key, s))
  {
    var r := Put(acc, key, s);
    forall k | k in r.table
      ensures r.table[k].name == k && Numbered(r.table[k].issues) && Numbered(r.table[k].options)
    {
      if k != key {
        assert Get(r, k) == Get(acc, k);
      }
    }
  }

  lemma {:induction false} ParseFromAsParsed(lines: seq<string>, i: nat, acc: Sections)
    requires i <= |lines| && acc.Valid() && AsParsed(acc)
    ensures AsParsed(ParseFrom(lines, i, acc))
    decreases |lines| - i
  {
    if i < |lines| {
      if IsHeader(lines[i]) {
        var key := HeaderKey(lines[i]);
        var (d, k) := ParseBody(lines, i + 1, EmptyDraft);
        ParseBodyNumbered(lines, i + 1, EmptyDraft);
        PutAsParsed(acc, key, FinishSection(key, d));
        ParseFromAsParsed(lines, k, Put(acc, key, FinishSection(key, d)));
      } else {
        ParseFromAsParsed(lines, i + 1, acc);
      }
    }
  }

  /** `parse` of any text: the keys are the trimmed header remainders in order of first
    * appearance, each holds the section of its last header, named by the key, with items
    * numbered from 1 and an empty item status. */
  lemma ParsedShape(raw: string)
    ensures Parsed(raw).keys == AddKeys([], HeaderKeys(Split(raw, '\n'), 0))
    ensures forall key :: Get(Parsed(raw), key) == LastSection(Split(raw, '\n'), 0, key)
    ensures AsParsed(Parsed(raw))
  {
    var lines := Split(raw, '\n');
    ParsedKeys(lines, 0, Empty());
    forall key
      ensures Get(Parsed(raw), key) == LastSection(lines, 0, key)
    {
      ParsedValues(lines, 0, Empty(), key);
    }
    ParseFromAsParsed(lines, 0, Empty());
  }

  // ---------------------------------------------------------------------------------
  // Field lines and their continuations

  /** A line that neither opens a section nor starts with a field marker. */
  predicate IsPlainLine(line: string) {
    !IsHeader(line) && !IsFieldMarkerLine(line)
  }

  /** What continuation lines add to a description or resolution: a space and the trimmed
    * line for each non-blank line; blank lines add nothing. */
  function Continuation(ls: seq<string>): string
    decreases |ls|
  {
    if ls == [] then ""
    else (if AllSpace(ls[0]) then "" else " " + Trim(ls[0])) + Continuation(ls[1..])
  }

  lemma ContinuationCons(lines: seq<string>, i: nat, j: nat)
    requires i < j <= |lines|
    ensures Continuation(lines[i..j])
            == (if AllSpace(lines[i]) then "" else " " + Trim(lines[i])) + Continuation(lines[i + 1..j])
  {
    assert lines[i..j][0] == lines[i];
    assert lines[i..j][1..] == lines[i + 1..j];
  }

  lemma Assoc(a: string, b: string, c: string)
    ensures a + b + c == a + (b + c)
  {}

  /** A plain line under a text field: a non-blank one continues a description or a
    * resolution, and the status is left alone. */
  lemma PlainStep(lines: seq<string>, i: nat, d: Draft)
    requires i < |lines| && IsPlainLine(lines[i])
    requires d.field == DescriptionField || d.field == StatusField || d.field == ResolutionField
    ensures var piece := if AllSpace(lines[i]) then "" else " " + Trim(lines[i]);
            BodyStep(lines, i, d)
            == (if d.field == DescriptionField then d.(description := d.description + piece)
                else if d.field == ResolutionField then d.(resolution := d.resolution + piece)
                else d, i + 1)
  {
    if AllSpace(lines[i]) {
      assert d.description + "" == d.description && d.resolution + "" == d.resolution;
      assert d.(description := d.description) == d && d.(resolution := d.resolution) == d;
    } else {
      Assoc(d.description, " ", Trim(lines[i]));
      Assoc(d.resolution, " ", Trim(lines[i]));
    }
  }

  /** Under `**Description:**`, plain lines are joined to the description with a space. */
  lemma {:induction false} DescriptionContinues(lines: seq<string>, i: nat, j: nat, d: Draft)
    requires i <= j <= |lines| && d.field == DescriptionField
    requires forall t :: i <= t < j ==> IsPlainLine(lines[t])
    ensures ParseBody(lines, i, d)
            == ParseBody(lines, j, d.(description := d.description + Continuation(lines[i..j])))
    decreases j - i
  {
    if i == j {
      assert lines[i..j] == [];
      assert d.description + "" == d.description;
    } else {
      var piece := if AllSpace(lines[i]) then "" else " " + Trim(lines[i]);
      var d1 := d.(description := d.description + piece);
      PlainStep(lines, i, d);
      DescriptionContinues(lines, i + 1, j, d1);
      ContinuationCons(lines, i, j);
      Assoc(d.description, piece, Continuation(lines[i + 1..j]));
    }
  }

  /** Under `**Resolution:**`, plain lines are joined to the resolution with a space. */
  lemma {:induction false} ResolutionContinues(lines: seq<string>, i: nat, j: nat, d: Draft)
    requires i <= j <= |lines| && d.field == ResolutionField
    requires forall t :: i <= t < j ==> IsPlainLine(lines[t])
    ensures ParseBody(lines, i, d)
            == ParseBody(lines, j, d.(resolution := d.resolution + Continuation(lines[i..j])))
    decreases j - i
  {
    if i == j {
      assert lines[i..j] == [];
      assert d.resolution + "" == d.resolution;
    } else {
      var piece := if AllSpace(lines[i]) then "" else " " + Trim(lines[i]);
      var d1 := d.(resolution := d.resolution + piece);
      PlainStep(lines, i, d);
      ResolutionContinues(lines, i + 1, j, d1);
      ContinuationCons(lines, i, j);
      Assoc(d.resolution, piece, Continuation(lines[i + 1..j]));
    }
  }

  /** Under `**Status:**`, plain lines change nothing: the status is its own line only. */
  lemma {:induction false} StatusKeepsItsLine(lines: seq<string>, i: nat, j: nat, d: Draft)
    requires i <= j <= |lines| && d.field == StatusField
    requires forall t :: i <= t < j ==> IsPlainLine(lines[t])
    ensures ParseBody(lines, i, d) == ParseBody(lines, j, d)
    decreases j - i
  {
    if i < j {
      PlainStep(lines, i, d);
      StatusKeepsItsLine(lines, i + 1, j, d);
    }
  }

  /** Two prefixes that differ at a position both cover never start the same line. */
  lemma PrefixesClash(line: string, p: string, q: string, c: nat)
    requires c < |p| && c < |q| && p[c] != q[c]
    ensures StartsWith(line, p) ==> !StartsWith(line, q)
  {
    if StartsWith(line, p) {
      assert line[..|p|][c] == line[c];
      if |q| <= |line| {
        assert line[..|q|][c] == line[c];
      }
    }
  }

  /** A section whose description line is followed only by plain lines up to the next
    * header gets the trimmed text after the marker joined with its continuation lines,
    * trimmed once more when the section is stored. */
  lemma DescriptionOfSection(lines: seq<string>, i: nat, d: Draft)
    requires i < |lines| && StartsWith(lines[i], DescriptionMarker)
    requires forall t :: i < t < NextHeader(lines, i + 1) ==> IsPlainLine(lines[t])
    ensures ParseBody(lines, i, d).0.description
            == Trim(lines[i][|DescriptionMarker|..]) + Continuation(lines[i + 1..NextHeader(lines, i + 1)])
  {
    var e := NextHeader(lines, i + 1);
    PrefixesClash(lines[i], DescriptionMarker, Header, 0);
    var d1 := d.(field := DescriptionField, description := Trim(lines[i][|DescriptionMarker|..]));
    assert BodyStep(lines, i, d) == (d1, i + 1);
    DescriptionContinues(lines, i + 1, e, d1);
  }

  /** A section whose status line is followed only by plain lines up to the next header
    * gets the trimmed text after the marker as its status. */
  lemma StatusOfSection(lines: seq<string>, i: nat, d: Draft)
    requires i < |lines| && StartsWith(lines[i], StatusMarker)
    requires forall t :: i < t < NextHeader(lines, i + 1) ==> IsPlainLine(lines[t])
    ensures ParseBody(lines, i, d).0.status == Trim(lines[i][|StatusMarker|..])
  {
    var e := NextHeader(lines, i + 1);
    PrefixesClash(lines[i], StatusMarker, Header, 0);
    PrefixesClash(lines[i], StatusMarker, DescriptionMarker, 2);
    var d1 := d.(field := StatusField, status := Trim(lines[i][|StatusMarker|..]));
    assert BodyStep(lines, i, d) == (d1, i + 1);
    StatusKeepsItsLine(lines, i + 1, e, d1);
  }
}
