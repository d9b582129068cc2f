/** `listing.mjs` of the context loader: glob patterns, the default directory exclusions
  * and the recursive directory listing. The file system is a tree of nodes handed in as
  * a value; a directory that cannot be read (`readdir` throws) is marked unreadable. */
module Listing {
  import opened Wrappers
  import opened Text
  import opened Seqs

  // ---------------------------------------------------------------------------------
  // buildMatcher

  /** The regular expression `buildMatcher(pattern)` builds, `^…$` around the pattern with
    * every character literal except `*` (`.*`) and `?` (`.`), matches `v` whole. A `.`
    * matches any character but a line terminator. */
  predicate GlobMatch(pattern: string, v: string)
    decreases |pattern| + |v|
  {
    if pattern == [] then v == []
    else if pattern[0] == '*' then
      GlobMatch(pattern[1..], v) || (v != [] && !IsLineTerminator(v[0]) && GlobMatch(pattern, v[1..]))
    else if pattern[0] == '?' then
      v != [] && !IsLineTerminator(v[0]) && GlobMatch(pattern[1..], v[1..])
    else
      v != [] && v[0] == pattern[0] && GlobMatch(pattern[1..], v[1..])
  }

  /** `buildMatcher(pattern)(v)`: an empty pattern accepts everything. */
  predicate Matcher(pattern: string, v: string) {
    pattern == "" || GlobMatch(pattern, v)
  }

  predicate IsLiteral(pattern: string) {
    '*' !in pattern && '?' !in pattern
  }

  /** A pattern without wildcards matches exactly itself. */
  lemma {:induction false} LiteralMatch(pattern: string, v: string)
    requires IsLiteral(pattern)
    ensures GlobMatch(pattern, v) <==> v == pattern
    decreases |pattern|
  {
    if pattern != [] {
      assert pattern[0] in pattern;
      assert forall c :: c in pattern[1..] ==> c in pattern;
      if v != [] {
        LiteralMatch(pattern[1..], v[1..]);
        assert v == [v[0]] + v[1..];
        assert pattern == [pattern[0]] + pattern[1..];
      }
    }
  }

  /** `*` alone matches every single-line name. */
  lemma {:induction false} StarMatch(v: string)
    ensures GlobMatch("*", v) <==> NoLineTerminator(v)
    decreases |v|
  {
    assert "*"[1..] == [];
    if v != [] {
      StarMatch(v[1..]);
      assert NoLineTerminator(v) <==> !IsLineTerminator(v[0]) && NoLineTerminator(v[1..]) by {
        if !IsLineTerminator(v[0]) && NoLineTerminator(v[1..]) {
          forall i | 0 <= i < |v| ensures !IsLineTerminator(v[i]) {
            if i > 0 { assert v[i] == v[1..][i - 1]; }
          }
        }
      }
    }
  }

  /** `*` followed by a literal, as in `*.md`, matches the single-line names ending in
    * that literal. */
  lemma {:induction false} StarSuffixMatch(lit: string, v: string)
    requires IsLiteral(lit)
    ensures GlobMatch("*" + lit, v) <==> EndsWith(v, lit) && NoLineTerminator(v[..|v| - |lit|])
    decreases |v|
  {
    var p := "*" + lit;
    assert p[0] == '*' && p[1..] == lit;
    LiteralMatch(lit, v);
    if v == [] {
      if lit == [] { assert v[..0] == []; }
    } else {
      StarSuffixMatch(lit, v[1..]);
      var w := v[1..];
      if v == lit {
        assert EndsWith(v, lit) && v[..|v| - |lit|] == [];
      } else if |w| >= |lit| {
        assert v[|v| - |lit|..] == w[|w| - |lit|..];
        assert v[..|v| - |lit|] == [v[0]] + w[..|w| - |lit|];
        NoLineTerminatorCons(v[0], w[..|w| - |lit|]);
      } else {
        assert v[0..] == v;
      }
    }
  }

  lemma NoLineTerminatorCons(c: char, s: string)
    ensures NoLineTerminator([c] + s) <==> !IsLineTerminator(c) && NoLineTerminator(s)
  {
    var t := [c] + s;
    assert t[0] == c;
    assert forall i :: 0 <= i < |s| ==> t[i + 1] == s[i];
    if !IsLineTerminator(c) && NoLineTerminator(s) {
      forall i | 0 <= i < |t| ensures !IsLineTerminator(t[i]) {
        if i > 0 { assert t[i] == s[i - 1]; }
      }
    }
  }

  // ---------------------------------------------------------------------------------
  // shouldApplyExclusions

  /** `EXCLUDED_DIRS` */
  const ExcludedDirs: set<string> := {"node_modules", ".git", "dist", "build", ".next", "coverage", ".cache"}

  /** `dir.replace(/\\/g, '/')` */
  function Slashes(dir: string): (r: string)
    ensures |r| == |dir| && '\\' !in r
    ensures forall i :: 0 <= i < |r| ==> r[i] == (if dir[i] == '\\' then '/' else dir[i])
  {
    if dir == [] then [] else [if dir[0] == '\\' then '/' else dir[0]] + Slashes(dir[1..])
  }

  predicate NonEmpty(s: string) { s != "" }

  /** The non-empty `/`-separated segments of the path with its backslashes turned into slashes. */
  function Segments(dir: string): seq<string> {
    Filter(Split(Slashes(dir), '/'), NonEmpty)
  }

  /** None of the names is an excluded directory. */
  predicate NoneExcluded(names: seq<string>) {
    forall x :: x in names ==> x !in ExcludedDirs
  }

  /** `shouldApplyExclusions(dir)` */
  predicate ShouldApplyExclusions(dir: string) {
    NoneExcluded(Segments(dir))
  }

  /** For a path written as segments joined by `/`, exclusions apply exactly when none of
    * its segments is an excluded directory name. */
  lemma ExclusionsOfJoined(segs: seq<string>)
    requires |segs| >= 1
    requires forall i :: 0 <= i < |segs| ==> '/' !in segs[i] && '\\' !in segs[i]
    ensures ShouldApplyExclusions(Join(segs, "/")) <==> NoneExcluded(segs)
  {
    SegmentsOfJoin(segs);
    NoneExcludedNonEmpty(segs);
  }

  /** Dropping empty names changes nothing, as the empty name is not excluded. */
  lemma NoneExcludedNonEmpty(names: seq<string>)
    ensures NoneExcluded(Filter(names, NonEmpty)) <==> NoneExcluded(names)
  {
    FilterMembers(names, NonEmpty);
    assert "" !in ExcludedDirs;
  }

  lemma SegmentsOfJoin(segs: seq<string>)
    requires |segs| >= 1
    requires forall i :: 0 <= i < |segs| ==> '/' !in segs[i] && '\\' !in segs[i]
    ensures Segments(Join(segs, "/")) == Filter(segs, NonEmpty)
  {
    JoinNoBackslash(segs);
    SlashesOfPlain(Join(segs, "/"));
    assert "/" == ['/'];
    SplitJoin(segs, '/');
  }

  lemma {:induction false} JoinNoBackslash(segs: seq<string>)
    requires forall i :: 0 <= i < |segs| ==> '\\' !in segs[i]
    ensures '\\' !in Join(segs, "/")
    decreases |segs|
  {
    if |segs| > 1 {
      JoinNoBackslash(segs[1..]);
    }
  }

  lemma SlashesOfPlain(dir: string)
    requires '\\' !in dir
    ensures Slashes(dir) == dir
  {
    var r := Slashes(dir);
    forall i | 0 <= i < |dir| ensures r[i] == dir[i] {
      assert dir[i] in dir;
    }
  }

  /** Backslashes count as separators: a path and its slash form agree. */
  lemma ExclusionsIgnoreBackslashes(dir: string)
    ensures ShouldApplyExclusions(dir) == ShouldApplyExclusions(Slashes(dir))
  {
    SlashesOfPlain(Slashes(dir));
  }

  // ---------------------------------------------------------------------------------
  // listDirectory

  /** A directory entry: a file (anything `isDirectory()` rejects) or a directory whose
    * `readdir` succeeds (`readable`) with the listed contents, in `readdir` order. */
  datatype Node = File(name: string) | Dir(name: string, readable: bool, contents: seq<Node>)

  /** The settings of one listing: the `filter` and `exclude` patterns, `maxDepth`, and
    * whether `EXCLUDED_DIRS` are skipped. */
  datatype Walker = Walker(filter: Option<string>, maxDepth: real, exclude: Option<string>, applyExclusions: bool)

  /** `filter ? buildMatcher(filter) : null`, applied to a file name: no filter passes all. */
  predicate Passes(filter: Option<string>, name: string) {
    filter.None? || Matcher(filter.value, name)
  }

  /** `excludeMatcher && excludeMatcher(name)` */
  predicate Excludes(exclude: Option<string>, name: string) {
    exclude.Some? && exclude.value != "" && GlobMatch(exclude.value, name)
  }

  /** A listed path, with the entry's own name, whether it is a directory, and the path of
    * the directory it was listed in. */
  datatype Listed = Listed(path: string, name: string, isDir: bool, parent: string)

  function Paths(ls: seq<Listed>): seq<string>
  {
    if ls == [] then [] else Paths(ls[..|ls| - 1]) + [ls[|ls| - 1].path]
  }

  /** `relativePath ? `${relativePath}/${name}` : name` */
  function ChildPath(rel: string, name: string): string {
    if rel == "" then name else rel + "/" + name
  }

  /** `walk(dir, depth, rel)`: nothing past `maxDepth` or when the directory cannot be read. */
  function Walked(dir: Node, depth: nat, rel: string, w: Walker): seq<Listed>
    decreases dir, 0
  {
    if depth as real > w.maxDepth || !dir.Dir? || !dir.readable then []
    else Entries(dir.contents, depth, rel, w)
  }

  /** The loop over the entries of a directory. */
  function Entries(nodes: seq<Node>, depth: nat, rel: string, w: Walker): seq<Listed>
    decreases nodes, 2
  {
    if nodes == [] then []
    else Entries(nodes[..|nodes| - 1], depth, rel, w) + Visit(nodes[|nodes| - 1], depth, rel, w)
  }

  /** One entry: skipped when excluded or a hidden directory; a directory is listed and
    * then walked one level deeper; a file is listed when it passes the filter. */
  function Visit(entry: Node, depth: nat, rel: string, w: Walker): seq<Listed>
    decreases entry, 1
  {
    if w.applyExclusions && entry.name in ExcludedDirs then []
    else if StartsWith(entry.name, ".") && entry.Dir? then []
    else
      var p := ChildPath(rel, entry.name);
      if Excludes(w.exclude, entry.name) then []
      else if entry.Dir? then [Listed(p, entry.name, true, rel)] + Walked(entry, depth + 1, p, w)
      else if !Passes(w.filter, entry.name) then []
      else [Listed(p, entry.name, false, rel)]
  }

  /** `listDirectory(options)` on the tree rooted at `options.dir`. */
  function ListDirectory(root: Node, dir: string, w: Walker): seq<string>
    requires w.applyExclusions == ShouldApplyExclusions(dir)
  {
    Paths(Walked(root, 1, "", w))
  }

  /** The walk, pushing every listed path onto `entries`. */
  class Lister {
    var entries: seq<string>

    constructor ()
      ensures entries == []
    {
      entries := [];
    }

    method Walk(dir: Node, depth: nat, rel: string, w: Walker)
      modifies this
      ensures entries == old(entries) + Paths(Walked(dir, depth, rel, w))
      decreases dir, 0
    {
      if depth as real > w.maxDepth || !dir.Dir? || !dir.readable {
        return;
      }
      WalkEntries(dir.contents, depth, rel, w);
    }

    /** The loop over the entries of a readable directory. */
    method WalkEntries(nodes: seq<Node>, depth: nat, rel: string, w: Walker)
      modifies this
      ensures entries == old(entries) + Paths(Entries(nodes, depth, rel, w))
      decreases nodes, 2
    {
      for k := 0 to |nodes|
        invariant entries == old(entries) + Paths(Entries(nodes[..k], depth, rel, w))
      {
        EntriesStep(nodes, k, depth, rel, w);
        VisitEntry(nodes[k], depth, rel, w);
      }
      assert nodes[..|nodes|] == nodes;
    }

    /** The body of the loop over the entries of a directory. */
    method VisitEntry(entry: Node, depth: nat, rel: string, w: Walker)
      modifies this
      ensures entries == old(entries) + Paths(Visit(entry, depth, rel, w))
      decreases entry, 1
    {
      if w.applyExclusions && entry.name in ExcludedDirs {
        return;
      }
      if StartsWith(entry.name, ".") && entry.Dir? {
        return;
      }
      var p := ChildPath(rel, entry.name);
      if Excludes(w.exclude, entry.name) {
        return;
      }
      if entry.Dir? {
        entries := entries + [p];
        Walk(entry, depth + 1, p, w);
        PathsAppend([Listed(p, entry.name, true, rel)], Walked(entry, depth + 1, p, w));
      } else if Passes(w.filter, entry.name) {
        entries := entries + [p];
      }
    }
  }

  lemma EntriesStep(nodes: seq<Node>, k: nat, depth: nat, rel: string, w: Walker)
    requires k < |nodes|
    ensures Paths(Entries(nodes[..k + 1], depth, rel, w))
      == Paths(Entries(nodes[..k], depth, rel, w)) + Paths(Visit(nodes[k], depth, rel, w))
  {
    assert nodes[..k + 1][..k] == nodes[..k];
    PathsAppend(Entries(nodes[..k], depth, rel, w), Visit(nodes[k], depth, rel, w));
  }

  lemma {:induction false} PathsAppend(a: seq<Listed>, b: seq<Listed>)
    ensures Paths(a + b) == Paths(a) + Paths(b)
    decreases |b|
  {
    if b == [] {
      assert a + b == a;
    } else {
      var c := b[..|b| - 1];
      PathsAppend(a, c);
      assert (a + b)[..|a + b| - 1] == a + c;
    }
  }

  /** `listDirectory(options)`: the walk from the root at depth 1. */
  method List(root: Node, dir: string, w: Walker) returns (entries: seq<string>)
    requires w.applyExclusions == ShouldApplyExclusions(dir)
    ensures entries == ListDirectory(root, dir, w)
  {
    var lister := new Lister();
    lister.Walk(root, 1, "", w);
    entries := lister.entries;
  }

  // ---------------------------------------------------------------------------------
  // What the listing guarantees

  /** A file name as a file system gives it: non-empty and free of `/`. */
  predicate GoodName(s: string) { s != "" && '/' !in s }

  predicate GoodNames(names: seq<string>) {
    forall i :: 0 <= i < |names| ==> GoodName(names[i])
  }

  /** Every entry below `n` has a proper name. */
  predicate WellNamedContents(n: Node)
    decreases n, 0
  {
    n.Dir? ==> forall i :: 0 <= i < |n.contents| ==> WellNamed(n.contents[i])
  }

  predicate WellNamed(n: Node)
    decreases n, 1
  {
    GoodName(n.name) && WellNamedContents(n)
  }

  /** The entry survives the checks of the loop body: not an excluded directory name when
    * exclusions apply, not a hidden directory, not matched by `exclude`, and, for a file,
    * passing `filter`. */
  predicate Kept(name: string, isDir: bool, w: Walker) {
    && !(w.applyExclusions && name in ExcludedDirs)
    && !(isDir && StartsWith(name, "."))
    && !Excludes(w.exclude, name)
    && (isDir || Passes(w.filter, name))
  }

  /** A listed entry: its path has between one and `maxDepth` segments, all proper names,
    * the last one its own name; it was kept, and so was every directory above it. */
  predicate EntryOk(e: Listed, w: Walker) {
    var segs := Split(e.path, '/');
    && |segs| as real <= w.maxDepth
    && GoodNames(segs)
    && segs[|segs| - 1] == e.name
    && Kept(e.name, e.isDir, w)
    && ParentPath(e.path) == e.parent
    && forall i :: 0 <= i < |segs| - 1 ==> Kept(segs[i], true, w)
  }

  predicate AllOk(l: seq<Listed>, w: Walker) {
    forall e :: e in l ==> EntryOk(e, w)
  }

  /** The directories walked so far, as path segments: `rel` is their join and `depth` is
    * one more than their number. */
  predicate Within(rel: string, rs: seq<string>, depth: nat, w: Walker) {
    && rel == Join(rs, "/")
    && |rs| + 1 == depth
    && GoodNames(rs)
    && forall i :: 0 <= i < |rs| ==> Kept(rs[i], true, w)
  }

  /** The path of an entry below `rel` is the segments of `rel` and its name. */
  lemma ChildPathSegments(rs: seq<string>, name: string)
    requires GoodNames(rs) && GoodName(name)
    ensures ChildPath(Join(rs, "/"), name) == Join(rs + [name], "/")
    ensures Split(ChildPath(Join(rs, "/"), name), '/') == rs + [name]
  {
    if rs == [] {
      assert rs + [name] == [name];
    } else {
      JoinSnoc(rs, "/", name);
    }
    assert "/" == ['/'];
    SplitJoin(rs + [name], '/');
  }

  lemma WithinChild(rel: string, rs: seq<string>, depth: nat, name: string, w: Walker)
    requires Within(rel, rs, depth, w) && GoodName(name) && Kept(name, true, w)
    ensures Within(ChildPath(rel, name), rs + [name], depth + 1, w)
  {
    ChildPathSegments(rs, name);
  }

  /** Every entry of a walk is listed as its rules say. */
  lemma {:induction false} WalkedOk(dir: Node, depth: nat, rel: string, rs: seq<string>, w: Walker)
    requires WellNamedContents(dir) && Within(rel, rs, depth, w)
    ensures AllOk(Walked(dir, depth, rel, w), w)
    decreases dir, 0
  {
    if !(depth as real > w.maxDepth || !dir.Dir? || !dir.readable) {
      EntriesOk(dir.contents, depth, rel, rs, w);
    }
  }

  lemma {:induction false} EntriesOk(nodes: seq<Node>, depth: nat, rel: string, rs: seq<string>, w: Walker)
    requires forall i :: 0 <= i < |nodes| ==> WellNamed(nodes[i])
    requires Within(rel, rs, depth, w) && depth as real <= w.maxDepth
    ensures AllOk(Entries(nodes, depth, rel, w), w)
    decreases nodes, 2
  {
    if nodes != [] {
      EntriesOk(nodes[..|nodes| - 1], depth, rel, rs, w);
      VisitOk(nodes[|nodes| - 1], depth, rel, rs, w);
    }
  }

  lemma {:induction false} VisitOk(entry: Node, depth: nat, rel: string, rs: seq<string>, w: Walker)
    requires WellNamed(entry)
    requires Within(rel, rs, depth, w) && depth as real <= w.maxDepth
    ensures AllOk(Visit(entry, depth, rel, w), w)
    decreases entry, 1
  {
    var l := Visit(entry, depth, rel, w);
    if l != [] {
      var p := ChildPath(rel, entry.name);
      ChildPathSegments(rs, entry.name);
      assert (rs + [entry.name])[..|rs|] == rs;
      ParentOfChild(rel, entry.name);
      assert EntryOk(Listed(p, entry.name, entry.Dir?, rel), w);
      if entry.Dir? {
        WithinChild(rel, rs, depth, entry.name, w);
        WalkedOk(entry, depth + 1, p, rs + [entry.name], w);
      }
    }
  }

  /** Every path `listDirectory` returns has between one and `maxDepth` `/`-separated
    * segments, each a name of the tree; no segment is hidden, excluded by `exclude` or,
    * when exclusions apply, an excluded directory; a file listed passes `filter`. */
  lemma ListedPaths(root: Node, w: Walker)
    requires WellNamedContents(root)
    ensures AllOk(Walked(root, 1, "", w), w)
  {
    WalkedOk(root, 1, "", [], w);
  }

  /** The path up to its last `/`; `""` for a path without one. */
  function ParentPath(path: string): string
    decreases |path|
  {
    if path == [] then []
    else if path[|path| - 1] == '/' then path[..|path| - 1]
    else ParentPath(path[..|path| - 1])
  }

  /** The parent of an entry's path is the directory it was listed in. */
  lemma {:induction false} ParentOfChild(rel: string, name: string)
    requires GoodName(name)
    ensures ParentPath(ChildPath(rel, name)) == rel
    decreases |name|
  {
    var p := ChildPath(rel, name);
    var init := name[..|name| - 1];
    assert name[|name| - 1] in name;
    if init == [] {
      if rel != "" {
        assert p[..|p| - 1] == rel + "/";
      }
      assert p[..|p| - 1] == ChildPath(rel, init) || rel == "";
    } else {
      assert forall c :: c in init ==> c in name;
      ParentOfChild(rel, init);
      assert p[..|p| - 1] == ChildPath(rel, init);
    }
  }

  /** Every entry sits directly in `rel` or in a directory listed before it. */
  predicate ParentsFirst(l: seq<Listed>, rel: string) {
    forall j :: 0 <= j < |l| ==>
      l[j].parent == rel || exists i :: 0 <= i < j && l[i].isDir && l[i].path == l[j].parent
  }

  lemma ParentsFirstAppend(a: seq<Listed>, b: seq<Listed>, rel: string)
    requires ParentsFirst(a, rel) && ParentsFirst(b, rel)
    ensures ParentsFirst(a + b, rel)
  {
    var l := a + b;
    forall j | 0 <= j < |l| && l[j].parent != rel
      ensures exists i :: 0 <= i < j && l[i].isDir && l[i].path == l[j].parent
    {
      if j < |a| {
        assert l[j] == a[j];
        var i :| 0 <= i < j && a[i].isDir && a[i].path == a[j].parent;
        assert l[i] == a[i];
      } else {
        var k := j - |a|;
        assert l[j] == b[k];
        var i :| 0 <= i < k && b[i].isDir && b[i].path == b[k].parent;
        assert l[i + |a|] == b[i];
      }
    }
  }

  /** A directory followed by its own listing: the directory sits in `rel` and the
    * entries of its listing sit in it or in a directory listed before them. */
  lemma ParentsFirstUnder(p: string, name: string, b: seq<Listed>, rel: string)
    requires ParentsFirst(b, p)
    ensures ParentsFirst([Listed(p, name, true, rel)] + b, rel)
  {
    var l := [Listed(p, name, true, rel)] + b;
    forall j | 0 < j < |l| && l[j].parent != rel
      ensures exists i :: 0 <= i < j && l[i].isDir && l[i].path == l[j].parent
    {
      assert l[j] == b[j - 1];
      if b[j - 1].parent != p {
        var i :| 0 <= i < j - 1 && b[i].isDir && b[i].path == b[j - 1].parent;
        assert l[i + 1] == b[i];
      } else {
        assert l[0].isDir && l[0].path == l[j].parent;
      }
    }
  }

  lemma {:induction false} WalkedParentsFirst(dir: Node, depth: nat, rel: string, rs: seq<string>, w: Walker)
    requires WellNamedContents(dir) && Within(rel, rs, depth, w)
    ensures ParentsFirst(Walked(dir, depth, rel, w), rel)
    decreases dir, 0
  {
    if !(depth as real > w.maxDepth || !dir.Dir? || !dir.readable) {
      EntriesParentsFirst(dir.contents, depth, rel, rs, w);
    }
  }

  lemma {:induction false} EntriesParentsFirst(nodes: seq<Node>, depth: nat, rel: string, rs: seq<string>, w: Walker)
    requires forall i :: 0 <= i < |nodes| ==> WellNamed(nodes[i])
    requires Within(rel, rs, depth, w)
    ensures ParentsFirst(Entries(nodes, depth, rel, w), rel)
    decreases nodes, 2
  {
    if nodes != [] {
      EntriesParentsFirst(nodes[..|nodes| - 1], depth, rel, rs, w);
      VisitParentsFirst(nodes[|nodes| - 1], depth, rel, rs, w);
      ParentsFirstAppend(Entries(nodes[..|nodes| - 1], depth, rel, w), Visit(nodes[|nodes| - 1], depth, rel, w), rel);
    }
  }

  lemma {:induction false} VisitParentsFirst(entry: Node, depth: nat, rel: string, rs: seq<string>, w: Walker)
    requires WellNamed(entry) && Within(rel, rs, depth, w)
    ensures ParentsFirst(Visit(entry, depth, rel, w), rel)
    decreases entry, 1
  {
    if Visit(entry, depth, rel, w) != [] && entry.Dir? {
      var p := ChildPath(rel, entry.name);
      WithinChild(rel, rs, depth, entry.name, w);
      WalkedParentsFirst(entry, depth + 1, p, rs + [entry.name], w);
      ParentsFirstUnder(p, entry.name, Walked(entry, depth + 1, p, w), rel);
    }
  }

  /** A directory is listed before anything inside it: every path `listDirectory` returns
    * is top-level (its parent path is empty) or comes after its parent directory. */
  lemma ListedParentsFirst(root: Node, w: Walker)
    requires WellNamedContents(root)
    ensures ParentsFirst(Walked(root, 1, "", w), "")
  {
    WalkedParentsFirst(root, 1, "", [], w);
  }

  /** Keeps directories, and files that pass `filter`. */
  function KeepFile(filter: Option<string>): Listed -> bool {
    (e: Listed) => e.isDir || Passes(filter, e.name)
  }

  /** `filter` only ever removes files: the listing with a filter is the unfiltered listing
    * with the failing files taken out, and every directory stays walked. */
  lemma {:induction false} FilterOnlyFiles(dir: Node, depth: nat, rel: string, w: Walker)
    ensures Walked(dir, depth, rel, w) == Filter(Walked(dir, depth, rel, w.(filter := None)), KeepFile(w.filter))
    decreases dir, 0
  {
    if !(depth as real > w.maxDepth || !dir.Dir? || !dir.readable) {
      EntriesOnlyFiles(dir.contents, depth, rel, w);
    }
  }

  lemma {:induction false} EntriesOnlyFiles(nodes: seq<Node>, depth: nat, rel: string, w: Walker)
    ensures Entries(nodes, depth, rel, w) == Filter(Entries(nodes, depth, rel, w.(filter := None)), KeepFile(w.filter))
    decreases nodes, 2
  {
    if nodes != [] {
      var init, last := nodes[..|nodes| - 1], nodes[|nodes| - 1];
      EntriesOnlyFiles(init, depth, rel, w);
      VisitOnlyFiles(last, depth, rel, w);
      FilterAppend(Entries(init, depth, rel, w.(filter := None)), Visit(last, depth, rel, w.(filter := None)), KeepFile(w.filter));
    }
  }

  lemma {:induction false} VisitOnlyFiles(entry: Node, depth: nat, rel: string, w: Walker)
    ensures Visit(entry, depth, rel, w) == Filter(Visit(entry, depth, rel, w.(filter := None)), KeepFile(w.filter))
    decreases entry, 1
  {
    var u := w.(filter := None);
    var p := ChildPath(rel, entry.name);
    if Visit(entry, depth, rel, u) != [] && entry.Dir? {
      var head := [Listed(p, entry.name, true, rel)];
      FilterOnlyFiles(entry, depth + 1, p, w);
      FilterAppend(head, Walked(entry, depth + 1, p, u), KeepFile(w.filter));
      assert Filter(head, KeepFile(w.filter)) == head by {
        assert head[..0] == [];
      }
    } else if Visit(entry, depth, rel, u) != [] {
      var one := [Listed(p, entry.name, false, rel)];
      assert one[..0] == [];
    }
  }
}
