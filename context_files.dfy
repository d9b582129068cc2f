/** `context.mjs` of the context loader, in both copies
  * (`src/.AchillesSkills/cskills/context-loader/context.mjs` and
  * `src/.AchillesSkills/context-loader/context.mjs`, whose file readers are the same code):
  * reading requested and included files into the shared `readFiles` map, and laying the
  * map out as assign statements with here-documents. The file system, `process.cwd()`,
  * `path.relative`/`resolve` and `randomUUID()` are parameters. */
module ContextFiles {
  import opened Wrappers
  import opened Text
  import opened OrderedMaps
  import opened Listing
  import opened Json

  // ---------------------------------------------------------------------------------
  // The file readers

  /** What the file system says about a path: `stat(path).size` or the message of the
    * error it throws, and `readFile(path, 'utf8')` or the message of its error. */
  datatype FileState = FileState(stat: Result<nat>, read: Result<string>)

  /** The file system, and `String(x)` for a number that is not whole (whole numbers are
    * written out exactly). */
  datatype Host = Host(files: string -> FileState, showNumber: real -> string)

  /** `{ maxFiles, maxFileSize, filter }`, with `null` as `None`. */
  datatype ReadOptions = ReadOptions(maxFiles: Option<real>, maxFileSize: Option<real>, filter: Option<string>)

  function SkippedMessage(size: nat, maxFileSize: real, host: Host): string {
    "[Skipped: file size " + NatToString(size) + " bytes exceeds maxFileSize " + NumberText(maxFileSize, host.showNumber) + "]"
  }

  function ErrorMessage(message: string): string {
    "[Error reading file: " + message + "]"
  }

  /** What the `try` block stores for a path: the size-limit message for a file larger than
    * `maxFileSize`, otherwise the content, and the error message when `stat` or `readFile`
    * throws. */
  function Content(path: string, maxFileSize: Option<real>, host: Host): string {
    var f := host.files(path);
    if maxFileSize.Some? && f.stat.Err? then ErrorMessage(f.stat.message)
    else if maxFileSize.Some? && f.stat.value as real > maxFileSize.value then
      SkippedMessage(f.stat.value, maxFileSize.value, host)
    else if f.read.Err? then ErrorMessage(f.read.message)
    else f.read.value
  }

  /** `filePath.split('/').pop()` */
  function FileName(path: string): string {
    var segs := Split(path, '/');
    segs[|segs| - 1]
  }

  /** `maxFiles !== null && readFiles.size >= maxFiles` */
  predicate Full(files: OrderedMap<string>, maxFiles: Option<real>) {
    maxFiles.Some? && files.Size() as real >= maxFiles.value
  }

  /** One path of the loop: an entry for a path not yet in the map that passes the filter. */
  function Step(files: OrderedMap<string>, path: string, o: ReadOptions, host: Host): OrderedMap<string>
    requires files.Valid()
  {
    if path in files.table then files
    else if !Passes(o.filter, FileName(path)) then files
    else Put(files, path, Content(path, o.maxFileSize, host))
  }

  /** The map after the loop over `paths`, which stops as soon as the map is full. */
  function Gathered(files: OrderedMap<string>, paths: seq<string>, o: ReadOptions, host: Host): (r: OrderedMap<string>)
    requires files.Valid()
    ensures r.Valid()
    decreases |paths|
  {
    if paths == [] || Full(files, o.maxFiles) then files
    else Gathered(Step(files, paths[0], o, host), paths[1..], o, host)
  }

  /** The map `readFiles` that both readers fill. */
  class ReadFiles {
    var files: OrderedMap<string>

    constructor (initial: OrderedMap<string>)
      requires initial.Valid()
      ensures files == initial
    {
      files := initial;
    }

    /** `readRequestedFiles(filePaths, readFiles, options)` */
    method ReadRequested(paths: seq<string>, o: ReadOptions, host: Host)
      requires files.Valid()
      modifies this
      ensures files == Gathered(old(files), paths, o, host)
    {
      for k := 0 to |paths|
        invariant files.Valid()
        invariant Gathered(files, paths[k..], o, host) == Gathered(old(files), paths, o, host)
      {
        assert paths[k..][1..] == paths[k + 1..];
        if Full(files, o.maxFiles) {
          return;
        }
        var path := paths[k];
        if path in files.table {
          continue;
        }
        if !Passes(o.filter, FileName(path)) {
          continue;
        }
        files := Put(files, path, Content(path, o.maxFileSize, host));
      }
    }

    /** `readIncludeFiles(includePaths, readFiles, options)`; `None` is an `includePaths`
      * that is not an array. */
    method ReadInclude(includePaths: Option<seq<string>>, maxFileSize: Option<real>, host: Host)
      requires files.Valid()
      modifies this
      ensures includePaths.None? ==> files == old(files)
      ensures includePaths.Some? ==>
        files == Gathered(old(files), includePaths.value, ReadOptions(None, maxFileSize, None), host)
    {
      if includePaths.None? {
        return;
      }
      var paths := includePaths.value;
      ghost var o := ReadOptions(None, maxFileSize, None);
      for k := 0 to |paths|
        invariant files.Valid()
        invariant Gathered(files, paths[k..], o, host) == Gathered(old(files), paths, o, host)
      {
        assert paths[k..][1..] == paths[k + 1..];
        var path := paths[k];
        if path in files.table {
          continue;
        }
        files := Put(files, path, Content(path, maxFileSize, host));
      }
    }
  }

  /** The readers only add: the keys already in the map keep their places at the front. */
  lemma {:induction false} GatheredKeysPrefix(files: OrderedMap<string>, paths: seq<string>, o: ReadOptions, host: Host)
    requires files.Valid()
    ensures var r := Gathered(files, paths, o, host);
      |files.keys| <= |r.keys| && r.keys[..|files.keys|] == files.keys
    decreases |paths|
  {
    if !(paths == [] || Full(files, o.maxFiles)) {
      var next := Step(files, paths[0], o, host);
      GatheredKeysPrefix(next, paths[1..], o, host);
      var r := Gathered(files, paths, o, host);
      assert r.keys[..|files.keys|] == r.keys[..|next.keys|][..|files.keys|];
    } else {
      assert files.keys[..|files.keys|] == files.keys;
    }
  }

  /** The readers never overwrite: every entry already in the map keeps its value. */
  lemma {:induction false} GatheredKeepsOld(files: OrderedMap<string>, paths: seq<string>, o: ReadOptions, host: Host)
    requires files.Valid()
    ensures var r := Gathered(files, paths, o, host);
      forall k :: k in files.table ==> k in r.table && r.table[k] == files.table[k]
    decreases |paths|
  {
    if !(paths == [] || Full(files, o.maxFiles)) {
      GatheredKeepsOld(Step(files, paths[0], o, host), paths[1..], o, host);
    }
  }

  /** Every new key is one of the paths. */
  lemma {:induction false} GatheredFromPaths(files: OrderedMap<string>, paths: seq<string>, o: ReadOptions, host: Host)
    requires files.Valid()
    ensures var r := Gathered(files, paths, o, host);
      forall k :: k in r.table && k !in files.table ==> k in paths
    decreases |paths|
  {
    if !(paths == [] || Full(files, o.maxFiles)) {
      var next := Step(files, paths[0], o, host);
      GatheredFromPaths(next, paths[1..], o, host);
      var r := Gathered(files, paths, o, host);
      forall k | k in r.table && k !in files.table ensures k in paths {
        if k != paths[0] {
          assert k in paths[1..];
        }
      }
    }
  }

  /** Every new entry holds what the `try` block stores for it, and its file name passes
    * the filter. */
  lemma {:induction false} GatheredEntries(files: OrderedMap<string>, paths: seq<string>, o: ReadOptions, host: Host)
    requires files.Valid()
    ensures var r := Gathered(files, paths, o, host);
      forall k :: k in r.table && k !in files.table ==>
        r.table[k] == Content(k, o.maxFileSize, host) && Passes(o.filter, FileName(k))
    decreases |paths|
  {
    if !(paths == [] || Full(files, o.maxFiles)) {
      var next := Step(files, paths[0], o, host);
      GatheredEntries(next, paths[1..], o, host);
      GatheredKeepsOld(next, paths[1..], o, host);
    }
  }

  /** With `maxFiles`, the map stops growing once it holds `maxFiles` entries: it either
    * keeps its size or ends below `maxFiles + 1`. */
  lemma {:induction false} GatheredCapped(files: OrderedMap<string>, paths: seq<string>, o: ReadOptions, host: Host)
    requires files.Valid() && o.maxFiles.Some?
    ensures var r := Gathered(files, paths, o, host);
      r.Size() == files.Size() || (r.Size() as real) < o.maxFiles.value + 1.0
    decreases |paths|
  {
    if !(paths == [] || Full(files, o.maxFiles)) {
      var next := Step(files, paths[0], o, host);
      GatheredCapped(next, paths[1..], o, host);
    }
  }

  /** A map that is already full is left alone. */
  lemma FullGathersNothing(files: OrderedMap<string>, paths: seq<string>, o: ReadOptions, host: Host)
    requires files.Valid() && Full(files, o.maxFiles)
    ensures Gathered(files, paths, o, host) == files
  {
  }

  /** Every path is read once: reading the same paths a second time adds nothing. */
  lemma {:induction false} GatheredIdempotent(files: OrderedMap<string>, paths: seq<string>, o: ReadOptions, host: Host)
    requires files.Valid() && o.maxFiles.None?
    ensures var r := Gathered(files, paths, o, host); Gathered(r, paths, o, host) == r
    decreases |paths|
  {
    GatheredCovers(files, paths, o, host);
    AllSeen(Gathered(files, paths, o, host), paths, o, host);
  }

  /** Without `maxFiles`, every path that passes the filter ends up in the map. */
  lemma {:induction false} GatheredCovers(files: OrderedMap<string>, paths: seq<string>, o: ReadOptions, host: Host)
    requires files.Valid() && o.maxFiles.None?
    ensures var r := Gathered(files, paths, o, host);
      forall i :: 0 <= i < |paths| ==> paths[i] in r.table || !Passes(o.filter, FileName(paths[i]))
    decreases |paths|
  {
    if paths != [] {
      var next := Step(files, paths[0], o, host);
      GatheredCovers(next, paths[1..], o, host);
      GatheredKeepsOld(next, paths[1..], o, host);
      var r := Gathered(files, paths, o, host);
      forall i | 1 <= i < |paths| ensures paths[i] in r.table || !Passes(o.filter, FileName(paths[i])) {
        assert paths[i] == paths[1..][i - 1];
      }
    }
  }

  /** Once every path either is in the map or fails the filter, the loop adds nothing. */
  lemma {:induction false} AllSeen(files: OrderedMap<string>, paths: seq<string>, o: ReadOptions, host: Host)
    requires files.Valid() && o.maxFiles.None?
    requires forall i :: 0 <= i < |paths| ==> paths[i] in files.table || !Passes(o.filter, FileName(paths[i]))
    ensures Gathered(files, paths, o, host) == files
    decreases |paths|
  {
    if paths != [] {
      AllSeen(files, paths[1..], o, host);
    }
  }
}
