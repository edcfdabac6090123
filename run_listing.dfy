/**
 * What the listing queries of the default store compute, as functions of
 * the directory's contents: the scan (`get_run_files`), the parsed flat list
 * (`get_run_list`), the grouping by source (`get_run_files_by_source`) and
 * the row selection of `list_runs`.  The methods of `XHProfRuns` are proved
 * against these definitions; the lemmas here state what the definitions mean.
 */
module RunListing {
  import opened PhpStrings
  import opened RunFileNames

  /** One file on disk: the stored payload and its modification time. */
  datatype File<D> = File(contents: D, mtime: int)

  /** The run files the directory scan finds in `dir`. */
  function Glob<D>(files: map<Path, File<D>>, dir: string): set<Path> {
    set p | p in files && InRunDir(dir, p)
  }

  /** The modification time of `path` (`filemtime`); 0 for a path not on disk. */
  function MtimeOf<D>(files: map<Path, File<D>>, path: Path): int {
    if path in files then files[path].mtime else 0
  }

  /** `paths` are files on disk, ordered by non-increasing modification time. */
  predicate NewestFirst<D>(paths: seq<Path>, files: map<Path, File<D>>) {
    && (forall i :: 0 <= i < |paths| ==> paths[i] in files)
    && (forall i, j :: 0 <= i < j < |paths| ==> MtimeOf(files, paths[i]) >= MtimeOf(files, paths[j]))
  }

  /** What `get_run_files` may return: each run file of `dir` exactly once,
      newest first (the order of files with equal times is not fixed). */
  predicate IsScan<D>(files: map<Path, File<D>>, dir: string, paths: seq<Path>) {
    && multiset(paths) == multiset(Glob(files, dir))
    && NewestFirst(paths, files)
    && (forall i :: 0 <= i < |paths| ==> Parseable(paths[i]))
  }

  /** The `get_run_list` rows for a scan, in scan order. */
  function ParseAll(paths: seq<Path>): (entries: seq<RunEntry>)
    requires forall i :: 0 <= i < |paths| ==> Parseable(paths[i])
    ensures |entries| == |paths|
    ensures forall i :: 0 <= i < |paths| ==> entries[i] == ParseRunFile(paths[i])
  {
    if paths == [] then []
    else ParseAll(paths[..|paths| - 1]) + [ParseRunFile(paths[|paths| - 1])]
  }

  /** The entries of `source`, in the order they occur in `entries`. */
  function OfSource(entries: seq<RunEntry>, source: string): (group: seq<RunEntry>)
    ensures |group| <= |entries|
    ensures forall k :: 0 <= k < |group| ==> group[k].source == source && group[k] in entries
  {
    if entries == [] then []
    else
      var last := entries[|entries| - 1];
      OfSource(entries[..|entries| - 1], source) + (if last.source == source then [last] else [])
  }

  /** The distinct sources of `entries`, in order of first occurrence: the key
      order of the PHP array `get_run_files_by_source` builds. */
  function SourcesInOrder(entries: seq<RunEntry>): (keys: seq<string>)
    ensures forall i, j :: 0 <= i < j < |keys| ==> keys[i] != keys[j]
    ensures forall i :: 0 <= i < |entries| ==> entries[i].source in keys
  {
    if entries == [] then []
    else
      var keys := SourcesInOrder(entries[..|entries| - 1]);
      var source := entries[|entries| - 1].source;
      if source in keys then keys else keys + [source]
  }

  /** What `get_run_files_by_source` returns: an ordered PHP array, modelled
      as its key order and its key-to-group map. */
  datatype SourceGroups = SourceGroups(order: seq<string>, groups: map<string, seq<RunEntry>>)

  /** The sum of the sizes of the groups named by `keys`. */
  function GroupTotal(keys: seq<string>, entries: seq<RunEntry>): nat {
    if keys == [] then 0 else |OfSource(entries, keys[0])| + GroupTotal(keys[1..], entries)
  }

  // ---------------------------------------------------------------------
  // Lemmas
  // ---------------------------------------------------------------------

  /** A scan lists every run file of the directory, and nothing else. */
  lemma ScanListsExactlyRunFiles<D>(files: map<Path, File<D>>, dir: string, paths: seq<Path>, p: Path)
    requires IsScan(files, dir, paths)
    ensures p in paths <==> p in files && InRunDir(dir, p)
  {
    assert p in paths <==> p in multiset(paths);
    assert p in Glob(files, dir) <==> p in multiset(Glob(files, dir));
  }

  /** A scan puts a strictly newer file before a strictly older one. */
  lemma ScanPutsNewerFirst<D>(files: map<Path, File<D>>, dir: string, paths: seq<Path>, i: nat, j: nat)
    requires IsScan(files, dir, paths)
    requires i < |paths| && j < |paths|
    requires MtimeOf(files, paths[i]) > MtimeOf(files, paths[j])
    ensures i < j
  {
  }

  /** Grouping keeps scan order: the group of a concatenation is the group of
      the first part followed by the group of the second. */
  lemma {:induction false} OfSourceAppend(first: seq<RunEntry>, second: seq<RunEntry>, source: string)
    ensures OfSource(first + second, source) == OfSource(first, source) + OfSource(second, source)
    decreases |second|
  {
    if second == [] {
      assert first + second == first;
    } else {
      var init := second[..|second| - 1];
      OfSourceAppend(first, init, source);
      assert (first + second)[..|first + second| - 1] == first + init;
    }
  }

  /** No entry of `source` is left out of its group. */
  lemma {:induction false} OfSourceComplete(entries: seq<RunEntry>, source: string, i: nat)
    requires i < |entries| && entries[i].source == source
    ensures entries[i] in OfSource(entries, source)
    decreases |entries|
  {
    var init := entries[..|entries| - 1];
    if i < |init| {
      OfSourceComplete(init, source, i);
      assert init[i] == entries[i];
    }
  }

  /** A source is a key of the grouping exactly when its group is non-empty. */
  lemma {:induction false} SourceIsKeyIff(entries: seq<RunEntry>, source: string)
    ensures source in SourcesInOrder(entries) <==> OfSource(entries, source) != []
    decreases |entries|
  {
    if entries != [] {
      SourceIsKeyIff(entries[..|entries| - 1], source);
    }
  }

  /** Every key of the grouping is the source of some entry. */
  lemma KeyHasEntry(entries: seq<RunEntry>, source: string) returns (p: nat)
    requires source in SourcesInOrder(entries)
    ensures p < |entries| && entries[p].source == source
  {
    SourceIsKeyIff(entries, source);
    var group := OfSource(entries, source);
    assert group[0] in entries;
    p :| 0 <= p < |entries| && entries[p] == group[0];
  }

  /** Keys come in order of first occurrence: for keys `i < j`, key `i`
      occurs in an entry before any entry of key `j`. */
  lemma {:induction false} SourcesInFirstOccurrenceOrder(entries: seq<RunEntry>, i: nat, j: nat)
    requires i < j < |SourcesInOrder(entries)|
    ensures var keys := SourcesInOrder(entries);
            exists p :: 0 <= p < |entries| && entries[p].source == keys[i] &&
              forall q :: 0 <= q <= p ==> entries[q].source != keys[j]
    decreases |entries|
  {
    var keys := SourcesInOrder(entries);
    var init := entries[..|entries| - 1];
    var prior := SourcesInOrder(init);
    if j < |prior| {
      assert keys[..|prior|] == prior;
      SourcesInFirstOccurrenceOrder(init, i, j);
      var p :| 0 <= p < |init| && init[p].source == prior[i] &&
               forall q :: 0 <= q <= p ==> init[q].source != prior[j];
      assert entries[p] == init[p];
      forall q | 0 <= q <= p ensures entries[q].source != keys[j] {
        assert entries[q] == init[q];
      }
    } else {
      // key j is the source of the last entry, met there for the first time
      assert keys == prior + [entries[|entries| - 1].source];
      var p := KeyHasEntry(init, prior[i]);
      assert entries[p] == init[p];
      forall q | 0 <= q <= p ensures entries[q].source != keys[j] {
        assert entries[q] == init[q];
        assert init[q].source in prior;
      }
    }
  }

  /** Counting one more entry adds one to the total of the groups of `keys`
      when its source is among them, and nothing otherwise. */
  lemma {:induction false} GroupTotalStep(keys: seq<string>, entries: seq<RunEntry>)
    requires entries != []
    requires forall i, j :: 0 <= i < j < |keys| ==> keys[i] != keys[j]
    ensures GroupTotal(keys, entries) ==
            GroupTotal(keys, entries[..|entries| - 1]) + (if entries[|entries| - 1].source in keys then 1 else 0)
    decreases |keys|
  {
    if keys != [] {
      GroupTotalStep(keys[1..], entries);
      var source := entries[|entries| - 1].source;
      if source == keys[0] {
        assert source !in keys[1..] by {
          forall k | 0 <= k < |keys[1..]| ensures keys[1..][k] != source {
            assert keys[1..][k] == keys[k + 1];
          }
        }
      } else {
        assert source in keys <==> source in keys[1..] by {
          assert keys == [keys[0]] + keys[1..];
        }
      }
    }
  }

  /** The total of a key list with one more key added at the end. */
  lemma {:induction false} GroupTotalAppendKey(keys: seq<string>, source: string, entries: seq<RunEntry>)
    ensures GroupTotal(keys + [source], entries) == GroupTotal(keys, entries) + |OfSource(entries, source)|
    decreases |keys|
  {
    if keys == [] {
      assert GroupTotal([source], entries) == |OfSource(entries, source)| + GroupTotal([], entries);
    } else {
      assert (keys + [source])[1..] == keys[1..] + [source];
      GroupTotalAppendKey(keys[1..], source, entries);
    }
  }

  /** How the grouping of a prefix grows by the next entry. */
  lemma GroupingStep(entries: seq<RunEntry>, i: nat)
    requires i < |entries|
    ensures var e := entries[i];
      && SourcesInOrder(entries[..i + 1]) ==
         (if e.source in SourcesInOrder(entries[..i]) then SourcesInOrder(entries[..i])
          else SourcesInOrder(entries[..i]) + [e.source])
      && (forall s :: OfSource(entries[..i + 1], s) ==
            OfSource(entries[..i], s) + (if e.source == s then [e] else []))
  {
    assert entries[..i + 1][..i] == entries[..i];
  }

  /** Whether `order` and `groups` are the grouping of `entries`. */
  ghost predicate IsGrouping(entries: seq<RunEntry>, order: seq<string>, groups: map<string, seq<RunEntry>>) {
    && order == SourcesInOrder(entries)
    && (forall s :: s in groups <==> s in order)
    && (forall s :: s in groups ==> groups[s] == OfSource(entries, s))
  }

  /** Appending `entries[i]` to its group (created empty when missing) turns
      the grouping of `entries[..i]` into that of `entries[..i + 1]`. */
  lemma AddToGrouping(entries: seq<RunEntry>, i: nat, order: seq<string>, groups: map<string, seq<RunEntry>>)
    requires i < |entries|
    requires IsGrouping(entries[..i], order, groups)
    ensures var e := entries[i];
      var prior := if e.source in groups then groups[e.source] else [];
      IsGrouping(entries[..i + 1],
                 if e.source in groups then order else order + [e.source],
                 groups[e.source := prior + [e]])
  {
    var e := entries[i];
    GroupingStep(entries, i);
    SourceIsKeyIff(entries[..i], e.source);
  }

  /** The groups of `get_run_files_by_source` partition the scan: their sizes
      add up to the number of scanned files. */
  lemma {:induction false} GroupSizesSum(entries: seq<RunEntry>)
    ensures GroupTotal(SourcesInOrder(entries), entries) == |entries|
    decreases |entries|
  {
    if entries != [] {
      var init := entries[..|entries| - 1];
      var source := entries[|entries| - 1].source;
      var keys := SourcesInOrder(init);
      GroupSizesSum(init);
      GroupTotalStep(keys, entries);
      if source !in keys {
        GroupTotalAppendKey(keys, source, entries);
        SourceIsKeyIff(init, source);
        assert OfSource(entries, source) == OfSource(init, source) + [entries[|entries| - 1]];
      }
    }
  }
}
