/**
 * The default run store `XHProfRuns_Default`: one file per run in a
 * directory, named `<run id>.<type>.xhprof`.  The filesystem is a shared
 * object holding a map from path to file; the messages the store hands to
 * `xhprof_error` are kept in an `errors` log on the store.  What the
 * environment decides (the argument, the ini value and the temp directory at
 * construction; the id `uniqid()` would give, whether `fopen` succeeds and
 * the clock when a run is saved) is passed in as parameters.
 */
module XHProfRuns {
  import opened PhpStrings
  import opened RunFileNames
  import opened RunListing

  /** The files of the filesystem, shared by every store that uses it. */
  class FileSystem<D> {
    var files: map<Path, File<D>>

    constructor (files: map<Path, File<D>>)
      ensures this.files == files
    {
      this.files := files;
    }
  }

  /** The directory a store settles on, and whether it warned about it. */
  datatype DirChoice = DirChoice(dir: string, warned: bool)

  /** The warning logged when the store falls back to the temp directory. */
  function DirWarning(dir: string): string {
    "Warning: Must specify directory location for XHProf runs. Trying " + dir +
    " as default. You can either pass the directory location as an argument to the constructor " +
    "for XHProfRuns_Default() or set xhprof.output_dir ini param."
  }

  /** The constructor's fallback chain: the argument, else the
      `xhprof.output_dir` ini value, else the temp directory with a warning;
      "empty" is PHP's `empty()`, so "0" counts as missing. */
  function ResolveDir(dirArg: Option<string>, iniOutputDir: Option<string>, tempDir: string): (c: DirChoice)
    ensures !IsEmptyOrNull(dirArg) ==> c == DirChoice(dirArg.value, false)
    ensures IsEmptyOrNull(dirArg) && !IsEmptyOrNull(iniOutputDir) ==> c == DirChoice(iniOutputDir.value, false)
    ensures c.warned <==> IsEmptyOrNull(dirArg) && IsEmptyOrNull(iniOutputDir)
    ensures c.warned ==> c.dir == tempDir
    ensures !IsEmpty(tempDir) ==> !IsEmpty(c.dir)
  {
    if !IsEmptyOrNull(dirArg) then DirChoice(dirArg.value, false)
    else if !IsEmptyOrNull(iniOutputDir) then DirChoice(iniOutputDir.value, false)
    else DirChoice(tempDir, true)
  }

  /** The description `get_run` gives for a run it found. */
  function FoundDescription(runType: string): string {
    "XHProf Run (Namespace=" + runType + ")"
  }

  /** The description `get_run` gives when no file exists for the run. */
  function MissingDescription(runId: string): string {
    "Invalid Run Id = " + runId
  }

  class XHProfRunsDefault<D> {
    var dir: string
    const disk: FileSystem<D>
    /** The messages passed to `xhprof_error`, oldest first. */
    var errors: seq<string>

    /** `__construct($dir = null)`. */
    constructor (dirArg: Option<string>, iniOutputDir: Option<string>, tempDir: string, disk: FileSystem<D>)
      ensures this.disk == disk
      ensures dir == ResolveDir(dirArg, iniOutputDir, tempDir).dir
      ensures errors == if ResolveDir(dirArg, iniOutputDir, tempDir).warned then [DirWarning(tempDir)] else []
    {
      var choice := ResolveDir(dirArg, iniOutputDir, tempDir);
      this.disk := disk;
      dir := choice.dir;
      errors := if choice.warned then [DirWarning(choice.dir)] else [];
    }

    /** `get_run($run_id, $type, &$run_desc)`: the stored payload (null when the
        file is missing) and the description. */
    method GetRun(runId: string, runType: string) returns (data: Option<D>, runDesc: string)
      modifies this`errors
      ensures var path := FileName(dir, runId, runType);
        if path in disk.files then
          && data == Some(disk.files[path].contents)
          && runDesc == FoundDescription(runType)
          && errors == old(errors)
        else
          && data == None
          && runDesc == MissingDescription(runId)
          && errors == old(errors) + ["Could not find file " + path]
    {
      var fileName := FileName(dir, runId, runType);
      if fileName !in disk.files {
        errors := errors + ["Could not find file " + fileName];
        runDesc := MissingDescription(runId);
        data := None;
        return;
      }
      var contents := disk.files[fileName].contents;
      runDesc := FoundDescription(runType);
      data := Some(contents);
    }

    /** `save_run($xhprof_data, $type, $run_id = null)`.  `generatedId` is what
        `gen_run_id` (`uniqid()`) gives, `openSucceeds` whether `fopen` succeeds and
        `now` the modification time the write leaves. */
    method SaveRun(data: D, runType: string, runId: Option<string>, generatedId: string, openSucceeds: bool, now: int)
      returns (id: string)
      modifies disk, this`errors
      ensures id == if runId.Some? then runId.value else generatedId
      ensures openSucceeds ==>
        && disk.files == old(disk.files)[FileName(dir, id, runType) := File(data, now)]
        && errors == old(errors)
      ensures !openSucceeds ==>
        && disk.files == old(disk.files)
        && errors == old(errors) + ["Could not open " + FileName(dir, id, runType) + "\n"]
    {
      id := if runId.None? then generatedId else runId.value;
      var fileName := FileName(dir, id, runType);
      if openSucceeds {
        disk.files := disk.files[fileName := File(data, now)];
      } else {
        errors := errors + ["Could not open " + fileName + "\n"];
      }
    }

    /** `get_run_files()`: the run files of the directory, newest first. */
    method GetRunFiles() returns (files: seq<Path>)
      ensures IsScan(disk.files, dir, files)
    {
      var onDisk := disk.files;
      var matched := Glob(onDisk, dir);
      var pending := matched;
      var found: seq<Path> := [];
      while pending != {}
        invariant pending <= matched
        invariant multiset(found) + multiset(pending) == multiset(matched)
        decreases |pending|
      {
        var p :| p in pending;
        assert multiset(pending) == multiset(pending - {p}) + multiset{p} by {
          assert pending == (pending - {p}) + {p};
        }
        found := found + [p];
        pending := pending - {p};
      }
      assert multiset(found) == multiset(matched);
      forall i | 0 <= i < |found| ensures found[i] in matched {
        assert found[i] in multiset(found);
      }
      var sorted := new Path[|found|](i requires 0 <= i < |found| => found[i]);
      assert sorted[..] == found;
      SortNewestFirst(sorted, onDisk);
      files := sorted[..];
      forall i | 0 <= i < |files| ensures Parseable(files[i]) {
        assert files[i] in multiset(files);
        ScannedPathParses(dir, files[i]);
      }
    }

    /** `get_run_list()`: one row per scanned file, in scan order, with the
        first two '.'-fields of its base name as run and source. */
    method GetRunList() returns (list: seq<RunEntry>, ghost scanned: seq<Path>)
      ensures IsScan(disk.files, dir, scanned)
      ensures |list| == |scanned|
      ensures forall i :: 0 <= i < |list| ==> list[i] == ParseRunFile(scanned[i])
    {
      var files := GetRunFiles();
      list := [];
      for i := 0 to |files|
        invariant |list| == i
        invariant forall k :: 0 <= k < i ==> list[k] == ParseRunFile(files[k])
      {
        list := list + [ParseRunFile(files[i])];
      }
      scanned := files;
    }

    /** `get_run_files_by_source()`: the scanned rows grouped by source; keys
        in order of first occurrence, each group in scan order. */
    method GetRunFilesBySource() returns (sources: SourceGroups, ghost scanned: seq<Path>)
      ensures IsScan(disk.files, dir, scanned)
      ensures sources.order == SourcesInOrder(ParseAll(scanned))
      ensures forall s :: s in sources.groups <==> s in sources.order
      ensures forall s :: s in sources.groups ==> sources.groups[s] == OfSource(ParseAll(scanned), s)
    {
      var files := GetRunFiles();
      ghost var entries := ParseAll(files);
      var order: seq<string> := [];
      var groups: map<string, seq<RunEntry>> := map[];
      for i := 0 to |files|
        invariant IsGrouping(entries[..i], order, groups)
      {
        var entry := ParseRunFile(files[i]);
        assert entry == entries[i];
        AddToGrouping(entries, i, order, groups);
        var group: seq<RunEntry> := [];
        if entry.source in groups {
          group := groups[entry.source];
        } else {
          order := order + [entry.source];
        }
        groups := groups[entry.source := group + [entry]];
      }
      assert entries[..|files|] == entries;
      sources := SourceGroups(order, groups);
      scanned := files;
    }

    /** The rows `list_runs()` shows when a source is requested: the scanned
        runs whose source is `source`, in scan order. */
    method ListRunsRows(source: string) returns (rows: seq<RunEntry>, ghost scanned: seq<Path>)
      ensures IsScan(disk.files, dir, scanned)
      ensures rows == OfSource(ParseAll(scanned), source)
    {
      var files := GetRunFiles();
      ghost var entries := ParseAll(files);
      rows := [];
      for i := 0 to |files|
        invariant rows == OfSource(entries[..i], source)
      {
        var entry := ParseRunFile(files[i]);
        assert entries[..i + 1][..i] == entries[..i];
        assert entries[..i + 1][i] == entry;
        if entry.source != source {
          continue;
        }
        rows := rows + [entry];
      }
      assert entries[..|files|] == entries;
      scanned := files;
    }
  }

  // ---------------------------------------------------------------------
  // The store as a keyed map over (run id, type)
  // ---------------------------------------------------------------------

  /** Saving under a plain key leaves the file of every other plain key as it was. */
  lemma SaveKeepsOtherRuns<D>(files: map<Path, File<D>>, dir: string, runId: string, runType: string,
                              otherId: string, otherType: string, f: File<D>)
    requires Plain(runId) && Plain(runType) && Plain(otherId) && Plain(otherType)
    requires otherId != runId || otherType != runType
    ensures var saved := files[FileName(dir, runId, runType) := f];
            var other := FileName(dir, otherId, otherType);
            && (other in saved <==> other in files)
            && (other in files ==> saved[other] == files[other])
  {
    RoundTrip(dir, runId, runType);
    RoundTrip(dir, otherId, otherType);
  }

  /** Without the plain-key condition another run can be overwritten: saving
      run `a.b` of type `c` replaces the file of run `a` of type `b.c`. */
  lemma SaveOverwritesDottedNeighbour<D>(files: map<Path, File<D>>, dir: string, a: string, b: string, c: string,
                                          f: File<D>)
    ensures a + "." + b != a
    ensures var saved := files[FileName(dir, a + "." + b, c) := f];
            FileName(dir, a, b + "." + c) in saved && saved[FileName(dir, a, b + "." + c)] == f
  {
    FileNameCollision(dir, a, b, c);
    assert |a + "." + b| > |a|;
  }

  /** A run saved with a plain, non-empty id into a non-empty directory shows
      up in every later scan, and is read back under its own id and type. */
  lemma SavedRunIsListed<D>(files: map<Path, File<D>>, dir: string, runId: string, runType: string,
                            f: File<D>, paths: seq<Path>)
    requires !IsEmpty(dir) && Plain(runId) && Plain(runType) && runId != ""
    requires IsScan(files[FileName(dir, runId, runType) := f], dir, paths)
    ensures FileName(dir, runId, runType) in paths
    ensures Parseable(FileName(dir, runId, runType))
    ensures ParseRunFile(FileName(dir, runId, runType)) == RunEntry(runId, runType, FileName(dir, runId, runType))
  {
    var path := FileName(dir, runId, runType);
    FileNameScannedIff(dir, runId, runType);
    ScanListsExactlyRunFiles(files[path := f], dir, paths, path);
    RoundTrip(dir, runId, runType);
  }

  /** A store built with a non-empty temp directory never ends up with an
      empty directory, so the scan looks where `save_run` writes. */
  lemma ResolvedDirIsScanned(dirArg: Option<string>, iniOutputDir: Option<string>, tempDir: string,
                             runId: string, runType: string)
    requires !IsEmpty(tempDir) && Plain(runId) && Plain(runType) && runId != ""
    ensures var dir := ResolveDir(dirArg, iniOutputDir, tempDir).dir;
            InRunDir(dir, FileName(dir, runId, runType))
  {
    FileNameScannedIff(ResolveDir(dirArg, iniOutputDir, tempDir).dir, runId, runType);
  }

  /** `get_run` after a successful `save_run` returns the saved payload. */
  method SaveThenGet<D>(store: XHProfRunsDefault<D>, data: D, runType: string, runId: Option<string>,
                        generatedId: string, now: int)
    returns (id: string, got: Option<D>, runDesc: string)
    modifies store, store.disk
    ensures id == if runId.Some? then runId.value else generatedId
    ensures got == Some(data) && runDesc == FoundDescription(runType)
  {
    id := store.SaveRun(data, runType, runId, generatedId, true, now);
    got, runDesc := store.GetRun(id, runType);
  }

  /** A second save under the same id and type replaces the first. */
  method OverwriteThenGet<D>(store: XHProfRunsDefault<D>, first: D, second: D, runType: string, runId: string,
                             firstTime: int, secondTime: int)
    returns (got: Option<D>)
    modifies store, store.disk
    ensures got == Some(second)
    ensures store.disk.files == old(store.disk.files)[FileName(store.dir, runId, runType) := File(second, secondTime)]
  {
    var id1 := store.SaveRun(first, runType, Some(runId), "", true, firstTime);
    var id2 := store.SaveRun(second, runType, Some(runId), "", true, secondTime);
    var runDesc;
    got, runDesc := store.GetRun(runId, runType);
  }

  /** A save whose `fopen` fails still returns the id, and the run cannot be fetched. */
  method FailedSaveThenGet<D>(store: XHProfRunsDefault<D>, data: D, runType: string, runId: string, now: int)
    returns (id: string, got: Option<D>, runDesc: string)
    requires FileName(store.dir, runId, runType) !in store.disk.files
    modifies store, store.disk
    ensures id == runId
    ensures got == None && runDesc == MissingDescription(runId)
    ensures store.disk.files == old(store.disk.files)
  {
    id := store.SaveRun(data, runType, Some(runId), "", false, now);
    got, runDesc := store.GetRun(id, runType);
  }

  /** The `usort` of `get_run_files`: sorts paths by non-increasing mtime. */
  method SortNewestFirst<D>(a: array<Path>, files: map<Path, File<D>>)
    requires forall k :: 0 <= k < a.Length ==> a[k] in files
    modifies a
    ensures multiset(a[..]) == old(multiset(a[..]))
    ensures NewestFirst(a[..], files)
  {
    var i := 0;
    while i < a.Length
      invariant 0 <= i <= a.Length
      invariant multiset(a[..]) == old(multiset(a[..]))
      invariant forall k, l :: 0 <= k < l < i ==> MtimeOf(files, a[k]) >= MtimeOf(files, a[l])
    {
      InsertNewest(a, files, i);
      i := i + 1;
    }
    forall k | 0 <= k < a.Length ensures a[k] in files {
      assert a[k] in multiset(a[..]);
      assert a[k] in old(multiset(a[..]));
    }
  }

  /** One insertion step: moves `a[i]` left past the older files before it,
      so that `a[..i + 1]` is newest first. */
  method InsertNewest<D>(a: array<Path>, files: map<Path, File<D>>, i: nat)
    requires i < a.Length
    requires forall k, l :: 0 <= k < l < i ==> MtimeOf(files, a[k]) >= MtimeOf(files, a[l])
    modifies a
    ensures multiset(a[..]) == old(multiset(a[..]))
    ensures forall k, l :: 0 <= k < l <= i ==> MtimeOf(files, a[k]) >= MtimeOf(files, a[l])
  {
    var j := i;
    while j > 0 && MtimeOf(files, a[j - 1]) < MtimeOf(files, a[j])
      invariant 0 <= j <= i
      invariant multiset(a[..]) == old(multiset(a[..]))
      invariant forall k, l :: 0 <= k < l <= i && k != j && l != j ==> MtimeOf(files, a[k]) >= MtimeOf(files, a[l])
      invariant forall l :: j < l <= i ==> MtimeOf(files, a[j]) > MtimeOf(files, a[l])
    {
      SwapAdjacent(a, j - 1);
      j := j - 1;
    }
  }

  /** Exchanges `a[k]` and `a[k + 1]`. */
  method SwapAdjacent<T>(a: array<T>, k: nat)
    requires k + 1 < a.Length
    modifies a
    ensures a[k] == old(a[k + 1]) && a[k + 1] == old(a[k])
    ensures forall m :: 0 <= m < a.Length && m != k && m != k + 1 ==> a[m] == old(a[m])
    ensures multiset(a[..]) == old(multiset(a[..]))
  {
    a[k], a[k + 1] := a[k + 1], a[k];
  }
}
