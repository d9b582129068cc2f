/** The section operations of `src/BacklogManager/BacklogManager.mjs`.
  *
  * Every operation loads a backlog file (`loadBacklog`: check the type name, read the file,
  * `parse` it), changes one section of the in-memory map, and writes the whole map back
  * with `render` (`saveBacklog`); the queries only load. The file system is the map
  * `files` of class `BacklogStore`, from path to content.
  *
  * The changes to one section are functions on `Section` values, each stating which field
  * changes and that no other does; the store's methods are proved to apply them to the
  * loaded map and to write the result, or to return `null` and write nothing. */
module BacklogManager {
  import opened Wrappers
  import opened Text
  import opened OrderedMaps
  import opened Seqs
  import opened BacklogIO
  import opened BacklogDomain

  // ---------------------------------------------------------------------------------
  // Backlog types and files

  datatype BacklogType = Specs | Docs

  function TypeName(t: BacklogType): string {
    match t
    case Specs => "specs"
    case Docs => "docs"
  }

  /** The check of `loadBacklog`: only `specs` and `docs` are backlog types. */
  function ParseType(name: string): (r: Result<BacklogType>)
    ensures r.Ok? ==> TypeName(r.value) == name
    ensures r.Err? ==> r.message == "Invalid type: " + name
  {
    if name == "specs" then Ok(Specs)
    else if name == "docs" then Ok(Docs)
    else Err("Invalid type: " + name)
  }

  /** Every type is accepted under its own name: `ParseType` fails exactly on other names. */
  lemma ParseTypeName(t: BacklogType)
    ensures ParseType(TypeName(t)) == Ok(t)
  {}

  /** `./<type>_backlog.md` */
  function BacklogFile(t: BacklogType): string {
    "./" + TypeName(t) + "_backlog.md"
  }

  /** `readBacklog(path)`: the file's text, or the error of a missing file. */
  function ReadBacklog(files: map<string, string>, path: string): (r: Result<string>)
    ensures r.Ok? <==> path in files
    ensures r.Ok? ==> r.value == files[path]
    ensures r.Err? ==> StartsWith(r.message, "Failed to read backlog: ")
  {
    if path in files then Ok(files[path])
    else
      var message := "Failed to read backlog: " + "ENOENT: no such file or directory, open '" + path + "'";
      assert message[..|"Failed to read backlog: "|] == "Failed to read backlog: ";
      Err(message)
  }

  datatype Loaded = Loaded(kind: BacklogType, sections: Sections)

  /** `loadBacklog(type)` without the file's metadata. */
  function Load(files: map<string, string>, typeName: string): (r: Result<Loaded>)
    ensures r.Ok? <==> ParseType(typeName).Ok? && BacklogFile(ParseType(typeName).value) in files
    ensures r.Ok? ==> (TypeName(r.value.kind) == typeName
                       && r.value.sections == Parsed(files[BacklogFile(r.value.kind)]))
    ensures ParseType(typeName).Err? ==> r == Err("Invalid type: " + typeName)
  {
    match ParseType(typeName)
    case Err(e) => Err(e)
    case Ok(t) =>
      match ReadBacklog(files, BacklogFile(t))
      case Err(e) => Err(e)
      case Ok(raw) => Ok(Loaded(t, Parsed(raw)))
  }

  // ---------------------------------------------------------------------------------
  // Changes to one section

  /** The ids of a list of items are 1, 2, 3, ... in order. */
  predicate Numbered(items: seq<Item>) {
    forall j :: 0 <= j < |items| ==> items[j].id == j + 1
  }

  /** `normalized.id = items.length + 1; items.push(normalized)` */
  function AppendNumbered(items: seq<Item>, normalized: Item): (r: seq<Item>)
    ensures |r| == |items| + 1 && r[..|items|] == items
    ensures r[|items|].id == |items| + 1
    ensures r[|items|] == normalized.(id := |items| + 1)
    ensures Numbered(items) ==> Numbered(r)
  {
    items + [normalized.(id := |items| + 1)]
  }

  /** `recordIssue`'s change: only the issues change. */
  function AddIssue(s: Section, normalized: Item): (r: Section)
    ensures r.issues == AppendNumbered(s.issues, normalized)
    ensures r.(issues := s.issues) == s
  {
    s.(issues := AppendNumbered(s.issues, normalized))
  }

  /** `proposeFix`'s change: only the options change. */
  function AddOption(s: Section, normalized: Item): (r: Section)
    ensures r.options == AppendNumbered(s.options, normalized)
    ensures r.(options := s.options) == s
  {
    s.(options := AppendNumbered(s.options, normalized))
  }

  /** `approveResolution`'s change: the resolution is always set, the status becomes `ok`
    * only for a resolution that is not blank, and nothing else changes. */
  function Approve(s: Section, resolution: string): (r: Section)
    ensures r.resolution == resolution
    ensures !AllSpace(resolution) ==> r.status == "ok"
    ensures AllSpace(resolution) ==> r.status == s.status
    ensures r.(resolution := s.resolution, status := s.status) == s
  {
    TrimEmptyIff(resolution);
    var s' := s.(resolution := resolution);
    if Trim(resolution) != "" then s'.(status := "ok") else s'
  }

  /** The properties `Object.assign(section, updates)` may set; `None` for a property
    * `updates` does not have. */
  datatype SectionUpdate = SectionUpdate(name: Option<string>, description: Option<string>,
                                         status: Option<string>, issues: Option<seq<Item>>,
                                         options: Option<seq<Item>>, resolution: Option<string>)

  /** `Object.assign(section, updates)`: each field `updates` has replaces the section's,
    * the others stay. */
  function Assign(s: Section, u: SectionUpdate): (r: Section)
    ensures r.name == u.name.GetOr(s.name) && r.description == u.description.GetOr(s.description)
    ensures r.status == u.status.GetOr(s.status) && r.issues == u.issues.GetOr(s.issues)
    ensures r.options == u.options.GetOr(s.options) && r.resolution == u.resolution.GetOr(s.resolution)
  {
    Section(u.name.GetOr(s.name), u.description.GetOr(s.description), u.status.GetOr(s.status),
            u.issues.GetOr(s.issues), u.options.GetOr(s.options), u.resolution.GetOr(s.resolution))
  }

  /** An update without properties leaves the section as it is. */
  lemma AssignNothing(s: Section)
    ensures Assign(s, SectionUpdate(None, None, None, None, None, None)) == s
  {}

  /** Assigning only `status` is `setStatus`'s change. */
  lemma AssignStatus(s: Section, status: string)
    ensures Assign(s, SectionUpdate(None, None, Some(status), None, None, None)) == s.(status := status)
  {}

  /** The section `appendSection` creates. */
  function NewSection(key: string, initialContent: string): (r: Section)
    ensures r.name == key && r.description == initialContent && r.status == "needs_work"
    ensures r.issues == [] && r.options == [] && r.resolution == ""
  {
    Section(key, initialContent, "needs_work", [], [], "")
  }

  // ---------------------------------------------------------------------------------
  // Changes to the map of sections

  /** `section.<field> = ...` on the entry `key` when there is one: the other entries and
    * the order of the keys stay as they are. */
  function Edited(m: Sections, key: string, s: Section): (r: Sections)
    requires m.Valid()
    ensures r.Valid() && r.keys == m.keys
    ensures key in m.table ==> Get(r, key) == Some(s)
    ensures key !in m.table ==> r == m
    ensures forall k :: k != key ==> Get(r, k) == Get(m, k)
  {
    if key in m.table then Put(m, key, s) else m
  }

  /** `appendSection`'s change: a new entry at the end, or nothing if the key is there. */
  function Appended(m: Sections, key: string, initialContent: string): (r: Sections)
    requires m.Valid()
    ensures r.Valid()
    ensures key in m.table ==> r == m
    ensures key !in m.table ==> r.keys == m.keys + [key] && Get(r, key) == Some(NewSection(key, initialContent))
    ensures forall k :: k != key ==> Get(r, k) == Get(m, k)
  {
    if key in m.table then m else Put(m, key, NewSection(key, initialContent))
  }

  // ---------------------------------------------------------------------------------
  // Queries

  /** `findSectionsByPrefix`'s condition on a key. */
  function HasPrefix(prefix: string): string -> bool {
    k => StartsWith(k, prefix)
  }

  /** `findSectionsByStatus`'s condition on a key. */
  function HasStatus(m: Sections, status: string): string -> bool {
    k => k in m.table && m.table[k].status == status
  }

  /** The first key, in entry order, that ends with `fileName`. */
  function FirstEndingWith(keys: seq<string>, fileName: string): (r: Option<nat>)
    ensures r.Some? ==> r.value < |keys| && EndsWith(keys[r.value], fileName)
    ensures r.Some? ==> forall i :: 0 <= i < r.value ==> !EndsWith(keys[i], fileName)
    ensures r.None? ==> forall i :: 0 <= i < |keys| ==> !EndsWith(keys[i], fileName)
    decreases |keys|
  {
    if keys == [] then None
    else if EndsWith(keys[0], fileName) then Some(0)
    else match FirstEndingWith(keys[1..], fileName)
      case None => None
      case Some(i) => Some(i + 1)
  }

  /** The loop of `findSectionsByPrefix` and `findSectionsByStatus`: the keys satisfying
    * `p`, in entry order. */
  method KeysWhere(m: Sections, p: string -> bool) returns (names: seq<string>)
    requires m.Valid()
    ensures names == Filter(m.keys, p)
    ensures forall k :: k in names <==> k in m.table && p(k)
  {
    names := [];
    for i := 0 to |m.keys|
      invariant names == Filter(m.keys[..i], p)
    {
      assert m.keys[..i + 1][..i] == m.keys[..i];
      if p(m.keys[i]) {
        names := names + [m.keys[i]];
      }
    }
    assert m.keys[..|m.keys|] == m.keys;
    FilterMembers(m.keys, p);
  }

  /** The loop of `findSectionByFileName`. */
  method KeyEndingWith(m: Sections, fileName: string) returns (r: Option<string>)
    requires m.Valid()
    ensures r.None? <==> FirstEndingWith(m.keys, fileName).None?
    ensures r.Some? ==> r.value == m.keys[FirstEndingWith(m.keys, fileName).value]
  {
    for i := 0 to |m.keys|
      invariant forall j :: 0 <= j < i ==> !EndsWith(m.keys[j], fileName)
    {
      if EndsWith(m.keys[i], fileName) {
        FirstIsLeast(m.keys, fileName, i);
        return Some(m.keys[i]);
      }
    }
    return None;
  }

  lemma {:induction false} FirstIsLeast(keys: seq<string>, fileName: string, i: nat)
    requires i < |keys| && EndsWith(keys[i], fileName)
    requires forall j :: 0 <= j < i ==> !EndsWith(keys[j], fileName)
    ensures FirstEndingWith(keys, fileName) == Some(i)
    decreases i
  {
    if i > 0 {
      FirstIsLeast(keys[1..], fileName, i - 1);
    }
  }

  // ---------------------------------------------------------------------------------
  // The dispatch of `applyChanges`

  /** An approved item as far as `applyChanges` looks at it: its `type` property, if any. */
  datatype ApprovedItem = ApprovedItem(kind: Option<string>, id: nat)

  /** The hooks object: whether `applySpecFix` and `applyDocFix` are present. */
  datatype Hooks = Hooks(hasSpecFix: bool, hasDocFix: bool)

  datatype HookCall = SpecFix(item: ApprovedItem) | DocFix(item: ApprovedItem)

  /** `change.type` for a drained change. `drain` returns the queue's `{taskRef, change}`
    * records, which have no `type` property, so the value is always `undefined`. */
  function DrainedType(e: Entry<ApprovedItem>): Option<string> {
    None
  }

  /** The hook called for one drained change, as the loop of `applyChanges` decides it. */
  function HookFor(kind: Option<string>, item: ApprovedItem, hooks: Hooks): seq<HookCall> {
    if kind == Some("issue") then (if hooks.hasSpecFix then [SpecFix(item)] else [])
    else if kind == Some("option") then (if hooks.hasDocFix then [DocFix(item)] else [])
    else []
  }

  /** The hooks the loop calls for the first `n` changes, dispatching on `change.type`. */
  function HookCalls(changes: seq<Entry<ApprovedItem>>, hooks: Hooks, n: nat): (r: seq<HookCall>)
    requires n <= |changes|
    decreases n
  {
    if n == 0 then []
    else HookCalls(changes, hooks, n - 1) + HookFor(DrainedType(changes[n - 1]), changes[n - 1].change, hooks)
  }

  /** As written, no hook is ever called, whatever the items' types. */
  lemma {:induction false} NoHookIsCalled(changes: seq<Entry<ApprovedItem>>, hooks: Hooks, n: nat)
    requires n <= |changes|
    ensures HookCalls(changes, hooks, n) == []
    decreases n
  {
    if n > 0 {
      NoHookIsCalled(changes, hooks, n - 1);
    }
  }

  /** The evidently intended dispatch, on the type of the approved item itself. */
  function FixedHookCalls(changes: seq<Entry<ApprovedItem>>, hooks: Hooks, n: nat): (r: seq<HookCall>)
    requires n <= |changes|
    ensures |r| <= n
    decreases n
  {
    if n == 0 then []
    else FixedHookCalls(changes, hooks, n - 1) + HookFor(changes[n - 1].change.kind, changes[n - 1].change, hooks)
  }

  /** With the intended dispatch, every issue reaches `applySpecFix` and every option
    * `applyDocFix` when the hook is present, and no other item reaches a hook. */
  lemma {:induction false} FixedHooksReachItems(changes: seq<Entry<ApprovedItem>>, hooks: Hooks, n: nat)
    requires n <= |changes|
    ensures forall i :: (0 <= i < n && changes[i].change.kind == Some("issue") && hooks.hasSpecFix
                         ==> SpecFix(changes[i].change) in FixedHookCalls(changes, hooks, n))
    ensures forall i :: (0 <= i < n && changes[i].change.kind == Some("option") && hooks.hasDocFix
                         ==> DocFix(changes[i].change) in FixedHookCalls(changes, hooks, n))
    ensures forall c :: c in FixedHookCalls(changes, hooks, n) ==>
      (c.SpecFix? && c.item.kind == Some("issue")) || (c.DocFix? && c.item.kind == Some("option"))
    decreases n
  {
    if n > 0 {
      FixedHooksReachItems(changes, hooks, n - 1);
    }
  }

  /** The items of `applyChanges` go through a queue under one task reference, so `drain`
    * hands them back in the order given. */
  lemma SameRefKeepsOrder(key: string, items: seq<ApprovedItem>)
    ensures SortedByRef(Enqueued(key, items)) == Enqueued(key, items)
  {
    var q := Enqueued(key, items);
    forall i, j | 0 <= i < j < |q| ensures RefLeq(q[i].taskRef, q[j].taskRef) {
      RefLeqReflexive(key);
    }
    SortKeepsSorted(q);
  }

  /** The queue after `queue.enqueue(key, item)` for every item in order. */
  function Enqueued(key: string, items: seq<ApprovedItem>): (q: seq<Entry<ApprovedItem>>)
    ensures |q| == |items|
    ensures forall i :: 0 <= i < |q| ==> q[i] == Entry(key, items[i])
  {
    seq(|items|, i requires 0 <= i < |items| => Entry(key, items[i]))
  }

  /** The first loop of `applyChanges` and the `drain` after it. */
  method QueueAndDrain(key: string, approvedItems: seq<ApprovedItem>) returns (changes: seq<Entry<ApprovedItem>>)
    ensures changes == Enqueued(key, approvedItems)
  {
    var queue := new ChangeQueue<ApprovedItem>();
    for i := 0 to |approvedItems|
      invariant queue.queue == Enqueued(key, approvedItems[..i])
    {
      queue.Enqueue(key, approvedItems[i]);
      assert approvedItems[..i + 1] == approvedItems[..i] + [approvedItems[i]];
    }
    assert approvedItems[..|approvedItems|] == approvedItems;
    SameRefKeepsOrder(key, approvedItems);
    changes := queue.Drain();
  }

  /** The second loop of `applyChanges`: the hook chosen for each drained change. */
  method Dispatch(changes: seq<Entry<ApprovedItem>>, hooks: Hooks) returns (calls: seq<HookCall>)
    ensures calls == HookCalls(changes, hooks, |changes|)
  {
    calls := [];
    for i := 0 to |changes|
      invariant calls == HookCalls(changes, hooks, i)
    {
      calls := calls + HookFor(DrainedType(changes[i]), changes[i].change, hooks);
    }
  }

  // ---------------------------------------------------------------------------------
  // The store

  class BacklogStore {
    /** The backlog files, by path. */
    var files: map<string, string>

    constructor(initial: map<string, string>)
      ensures files == initial
    {
      files := initial;
    }

    /** `loadBacklog(type)` */
    method LoadBacklog(typeName: string) returns (r: Result<Loaded>)
      ensures r == Load(files, typeName)
    {
      var t := ParseType(typeName);
      if t.Err? {
        return Err(t.message);
      }
      var path := BacklogFile(t.value);
      if path !in files {
        return Err(ReadBacklog(files, path).message);
      }
      var sections := Parse(files[path]);
      return Ok(Loaded(t.value, sections));
    }

    /** `saveBacklog(type, sections)` */
    method SaveBacklog(t: BacklogType, sections: Sections)
      requires sections.Valid()
      modifies this
      ensures files == old(files)[BacklogFile(t) := Rendered(sections)]
    {
      var content := Render(sections);
      files := files[BacklogFile(t) := content];
    }

    /** `getSection(type, fileKey)` */
    method GetSection(typeName: string, fileKey: string) returns (r: Result<Option<Section>>)
      ensures Load(files, typeName).Err? ==> r == Err(Load(files, typeName).message)
      ensures Load(files, typeName).Ok? ==> r == Ok(Get(Load(files, typeName).value.sections, fileKey))
    {
      var l := LoadBacklog(typeName);
      if l.Err? {
        return Err(l.message);
      }
      return Ok(Get(l.value.sections, fileKey));
    }

    /** `recordIssue(type, relativeFilePath, issue)`, with `normalized` the value of
      * `normalizeIssue(issue)`. */
    method RecordIssue(typeName: string, key: string, normalized: Item) returns (r: Result<Option<Section>>)
      modifies this
      ensures Load(old(files), typeName).Err? ==> r == Err(Load(old(files), typeName).message) && files == old(files)
      ensures Load(old(files), typeName).Ok? ==>
        var l := Load(old(files), typeName).value;
        if key !in l.sections.table then r == Ok(None) && files == old(files)
        else
          var s := AddIssue(l.sections.table[key], normalized);
          r == Ok(Some(s)) && files == old(files)[BacklogFile(l.kind) := Rendered(Edited(l.sections, key, s))]
    {
      var l := LoadBacklog(typeName);
      if l.Err? {
        return Err(l.message);
      }
      var sections := l.value.sections;
      if key !in sections.table {
        return Ok(None);
      }
      var section := AddIssue(sections.table[key], normalized);
      sections := Put(sections, key, section);
      SaveBacklog(l.value.kind, sections);
      return Ok(Some(section));
    }

    /** `proposeFix(type, relativeFilePath, proposal)` */
    method ProposeFix(typeName: string, key: string, normalized: Item) returns (r: Result<Option<Section>>)
      modifies this
      ensures Load(old(files), typeName).Err? ==> r == Err(Load(old(files), typeName).message) && files == old(files)
      ensures Load(old(files), typeName).Ok? ==>
        var l := Load(old(files), typeName).value;
        if key !in l.sections.table then r == Ok(None) && files == old(files)
        else
          var s := AddOption(l.sections.table[key], normalized);
          r == Ok(Some(s)) && files == old(files)[BacklogFile(l.kind) := Rendered(Edited(l.sections, key, s))]
    {
      var l := LoadBacklog(typeName);
      if l.Err? {
        return Err(l.message);
      }
      var sections := l.value.sections;
      if key !in sections.table {
        return Ok(None);
      }
      var section := AddOption(sections.table[key], normalized);
      sections := Put(sections, key, section);
      SaveBacklog(l.value.kind, sections);
      return Ok(Some(section));
    }

    /** `approveResolution(type, relativeFilePath, resolutionString)` */
    method ApproveResolution(typeName: string, key: string, resolution: string) returns (r: Result<Option<Section>>)
      modifies this
      ensures Load(old(files), typeName).Err? ==> r == Err(Load(old(files), typeName).message) && files == old(files)
      ensures Load(old(files), typeName).Ok? ==>
        var l := Load(old(files), typeName).value;
        if key !in l.sections.table then r == Ok(None) && files == old(files)
        else
          var s := Approve(l.sections.table[key], resolution);
          r == Ok(Some(s)) && files == old(files)[BacklogFile(l.kind) := Rendered(Edited(l.sections, key, s))]
    {
      var l := LoadBacklog(typeName);
      if l.Err? {
        return Err(l.message);
      }
      var sections := l.value.sections;
      if key !in sections.table {
        return Ok(None);
      }
      var section := sections.table[key].(resolution := resolution);
      if Trim(resolution) != "" {
        section := section.(status := "ok");
      }
      sections := Put(sections, key, section);
      SaveBacklog(l.value.kind, sections);
      return Ok(Some(section));
    }

    /** `applyChanges(type, relativeFilePath, approvedItems, hooks)`. `calls` lists the
      * hook invocations in order; what the hooks do to the section is theirs. */
    method ApplyChanges(typeName: string, key: string, approvedItems: seq<ApprovedItem>, hooks: Hooks)
      returns (r: Result<Option<seq<Entry<ApprovedItem>>>>, calls: seq<HookCall>)
      modifies this
      ensures Load(old(files), typeName).Err? ==> r == Err(Load(old(files), typeName).message) && files == old(files)
      ensures Load(old(files), typeName).Ok? ==>
        var l := Load(old(files), typeName).value;
        if key !in l.sections.table then r == Ok(None) && files == old(files)
        else
          var s := l.sections.table[key].(status := "ok");
          r == Ok(Some(Enqueued(key, approvedItems)))
          && files == old(files)[BacklogFile(l.kind) := Rendered(Edited(l.sections, key, s))]
      ensures r.Ok? && r.value.Some? ==> calls == HookCalls(r.value.value, hooks, |r.value.value|) == []
    {
      calls := [];
      var l := LoadBacklog(typeName);
      if l.Err? {
        return Err(l.message), calls;
      }
      var sections := l.value.sections;
      if key !in sections.table {
        return Ok(None), calls;
      }
      var changes := QueueAndDrain(key, approvedItems);
      calls := Dispatch(changes, hooks);
      NoHookIsCalled(changes, hooks, |changes|);
      var section := sections.table[key].(status := "ok");
      sections := Put(sections, key, section);
      SaveBacklog(l.value.kind, sections);
      return Ok(Some(changes)), calls;
    }

    /** `findSectionsByPrefix(type, prefix)` */
    method FindSectionsByPrefix(typeName: string, prefix: string) returns (r: Result<seq<string>>)
      ensures Load(files, typeName).Err? ==> r == Err(Load(files, typeName).message)
      ensures Load(files, typeName).Ok? ==>
        var m := Load(files, typeName).value.sections;
        r.Ok? && r.value == Filter(m.keys, HasPrefix(prefix))
        && forall k :: k in r.value <==> k in m.table && StartsWith(k, prefix)
    {
      var l := LoadBacklog(typeName);
      if l.Err? {
        return Err(l.message);
      }
      var names := KeysWhere(l.value.sections, HasPrefix(prefix));
      return Ok(names);
    }

    /** `findSectionByFileName(type, fileName)` */
    method FindSectionByFileName(typeName: string, fileName: string) returns (r: Result<Option<string>>)
      ensures Load(files, typeName).Err? ==> r == Err(Load(files, typeName).message)
      ensures Load(files, typeName).Ok? ==>
        var keys := Load(files, typeName).value.sections.keys;
        r.Ok? && (r.value.None? <==> FirstEndingWith(keys, fileName).None?)
        && (r.value.Some? ==> r.value.value == keys[FirstEndingWith(keys, fileName).value])
    {
      var l := LoadBacklog(typeName);
      if l.Err? {
        return Err(l.message);
      }
      var name := KeyEndingWith(l.value.sections, fileName);
      return Ok(name);
    }

    /** `findSectionsByStatus(type, status)` */
    method FindSectionsByStatus(typeName: string, status: string) returns (r: Result<seq<string>>)
      ensures Load(files, typeName).Err? ==> r == Err(Load(files, typeName).message)
      ensures Load(files, typeName).Ok? ==>
        var m := Load(files, typeName).value.sections;
        r.Ok? && r.value == Filter(m.keys, HasStatus(m, status))
        && forall k :: k in r.value <==> k in m.table && m.table[k].status == status
    {
      var l := LoadBacklog(typeName);
      if l.Err? {
        return Err(l.message);
      }
      var names := KeysWhere(l.value.sections, HasStatus(l.value.sections, status));
      return Ok(names);
    }

    /** `setStatus(type, relativeFilePath, status)`: the backlog is written back even when
      * the key is absent. */
    method SetStatus(typeName: string, key: string, status: string) returns (r: Result<()>)
      modifies this
      ensures Load(old(files), typeName).Err? ==> r == Err(Load(old(files), typeName).message) && files == old(files)
      ensures Load(old(files), typeName).Ok? ==>
        var l := Load(old(files), typeName).value;
        var m := if key in l.sections.table then Edited(l.sections, key, l.sections.table[key].(status := status))
                 else l.sections;
        r == Ok(()) && files == old(files)[BacklogFile(l.kind) := Rendered(m)]
    {
      var l := LoadBacklog(typeName);
      if l.Err? {
        return Err(l.message);
      }
      var sections := l.value.sections;
      if key in sections.table {
        sections := Put(sections, key, sections.table[key].(status := status));
      }
      SaveBacklog(l.value.kind, sections);
      return Ok(());
    }

    /** `updateSection(type, relativeFilePath, updates)` */
    method UpdateSection(typeName: string, key: string, updates: SectionUpdate) returns (r: Result<()>)
      modifies this
      ensures Load(old(files), typeName).Err? ==> r == Err(Load(old(files), typeName).message) && files == old(files)
      ensures Load(old(files), typeName).Ok? ==>
        var l := Load(old(files), typeName).value;
        var m := if key in l.sections.table then Edited(l.sections, key, Assign(l.sections.table[key], updates))
                 else l.sections;
        r == Ok(()) && files == old(files)[BacklogFile(l.kind) := Rendered(m)]
    {
      var l := LoadBacklog(typeName);
      if l.Err? {
        return Err(l.message);
      }
      var sections := l.value.sections;
      if key in sections.table {
        sections := Put(sections, key, Assign(sections.table[key], updates));
      }
      SaveBacklog(l.value.kind, sections);
      return Ok(());
    }

    /** `appendSection(type, relativeFilePath, initialContent)` */
    method AppendSection(typeName: string, key: string, initialContent: string) returns (r: Result<()>)
      modifies this
      ensures Load(old(files), typeName).Err? ==> r == Err(Load(old(files), typeName).message) && files == old(files)
      ensures Load(old(files), typeName).Ok? ==>
        var l := Load(old(files), typeName).value;
        r == Ok(()) && files == old(files)[BacklogFile(l.kind) := Rendered(Appended(l.sections, key, initialContent))]
    {
      var l := LoadBacklog(typeName);
      if l.Err? {
        return Err(l.message);
      }
      var sections := l.value.sections;
      if key !in sections.table {
        sections := Put(sections, key, NewSection(key, initialContent));
      }
      SaveBacklog(l.value.kind, sections);
      return Ok(());
    }
  }
}
