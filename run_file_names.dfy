/**
 * The run-file grammar of the default store: how `(run id, runType)` becomes a
 * path (`file_name`), which paths the directory scan picks up
 * (`glob` over the pattern `dir + "/" + "*.xhprof"`), and how a scanned path is read back into a
 * `(run, source)` pair (`list($run, $source) = explode('.', basename($file))`).
 */
module RunFileNames {
  import opened PhpStrings

  type Path = string

  /** The store-wide file suffix (the `$suffix` field, never reassigned). */
  const Suffix: string := "xhprof"

  /** What every run file name ends with. */
  const Extension: string := "." + Suffix

  /** An id or runType that the file name grammar carries through unchanged. */
  predicate Plain(s: string) {
    '.' !in s && '/' !in s
  }

  /** `file_name($run_id, $runType)` for a store whose directory is `dir`. */
  function FileName(dir: string, runId: string, runType: string): Path {
    var file := runId + "." + runType + "." + Suffix;
    if IsEmpty(dir) then file else dir + "/" + file
  }

  /** One row of a listing: the `run`, `source` and `file` entries. */
  datatype RunEntry = RunEntry(run: string, source: string, file: Path)

  /** A path whose base name has the two fields `list($run, $source)` reads. */
  predicate Parseable(path: Path) {
    '.' in Basename(path)
  }

  /** `list($run, $source) = explode('.', basename($file))`, kept with the path. */
  function ParseRunFile(path: Path): (e: RunEntry)
    requires Parseable(path)
    ensures e.file == path
    ensures Plain(e.run) && Plain(e.source)
  {
    var fields := Explode(Basename(path));
    ExplodeWithDot(Basename(path));
    ExplodeFieldsWithin(Basename(path), '/');
    RunEntry(fields[0], fields[1], path)
  }

  /** Whether the glob of `dir + "/" + "*.xhprof"` returns `path`: a file directly in `dir`
      whose name ends in ".xhprof" and is not hidden (a leading '.' is not
      matched by `*`). */
  predicate InRunDir(dir: string, path: Path) {
    && |path| > |dir| + 1
    && path[..|dir| + 1] == dir + "/"
    && var name := path[|dir| + 1..];
    && '/' !in name
    && |name| >= |Extension|
    && name[|name| - |Extension|..] == Extension
    && name[0] != '.'
  }

  /** The parsed `run` and `source` are the first two fields of the base name:
      "run.source" starts it, and is followed by its end or by a '.'. */
  lemma ParsedFieldsArePrefix(path: Path)
    requires Parseable(path)
    ensures var e := ParseRunFile(path);
            e.run + "." + e.source <= Basename(path)
    ensures var e := ParseRunFile(path); var b := Basename(path);
            var n := |e.run| + 1 + |e.source|;
            n == |b| || b[n] == '.'
  {
    var b := Basename(path);
    var fields := Explode(b);
    ImplodeExplode(b);
    ExplodeWithDot(b);
    if |fields| == 2 {
      assert Implode(fields) == fields[0] + "." + fields[1];
    } else {
      assert Implode(fields) == fields[0] + "." + fields[1] + "." + Implode(fields[2..]);
    }
  }

  /** Appending '/'-free text to a path appends it to the last component. */
  lemma {:induction false} LastComponentAppend(s: string, t: string)
    requires '/' !in t
    ensures LastComponent(s + t) == LastComponent(s) + t
    decreases |t|
  {
    if t != [] {
      var init, last := t[..|t| - 1], t[|t| - 1];
      assert t == init + [last];
      assert last != '/' by { assert last in t; }
      assert '/' !in init by {
        forall k | 0 <= k < |init| ensures init[k] != '/' {
          assert init[k] in t;
        }
      }
      LastComponentAppend(s, init);
      var u := s + t;
      assert u[|u| - 1] == last;
      assert u[..|u| - 1] == s + init;
      calc {
        LastComponent(u);
        LastComponent(s + init) + [last];
        LastComponent(s) + init + [last];
        LastComponent(s) + t;
      }
    } else {
      assert s + t == s;
    }
  }

  /** The base name of every file name ends in the run-file extension. */
  lemma FileNameBasename(dir: string, runId: string, runType: string)
    ensures var b := Basename(FileName(dir, runId, runType));
            |b| >= |Extension| && b[|b| - |Extension|..] == Extension
    ensures Parseable(FileName(dir, runId, runType))
  {
    var path := FileName(dir, runId, runType);
    var front := if IsEmpty(dir) then runId + "." + runType else dir + "/" + runId + "." + runType;
    assert path == front + Extension;
    assert path[|path| - 1] == 'f';
    LastComponentAppend(front, Extension);
    var b := Basename(path);
    assert b == LastComponent(front) + Extension;
    assert b[|b| - |Extension|] == '.';
  }

  /** The base name of `file_name(r, t)` for a '/'-free id and type is "r.t.xhprof". */
  lemma PlainFileNameBasename(dir: string, runId: string, runType: string)
    requires '/' !in runId && '/' !in runType
    ensures Basename(FileName(dir, runId, runType)) == runId + "." + runType + "." + Suffix
  {
    var name := runId + "." + runType + "." + Suffix;
    assert '/' !in name;
    if IsEmpty(dir) {
      BasenameWithoutSlash(name);
    } else {
      BasenameAfterSlash(dir, name);
    }
  }

  /** "r.t.xhprof" explodes into exactly its three fields when r and t have no '.'. */
  lemma PlainNameFields(runId: string, runType: string)
    requires '.' !in runId && '.' !in runType
    ensures Explode(runId + "." + runType + "." + Suffix) == [runId, runType, Suffix]
  {
    ExplodeWithoutDot(Suffix);
    ExplodeAtFirstDot(runType, Suffix);
    assert runId + "." + runType + "." + Suffix == runId + "." + (runType + "." + Suffix);
    ExplodeAtFirstDot(runId, runType + "." + Suffix);
  }

  /** Decoding the base name of `file_name(r, t)` gives back `(r, t)` exactly
      when neither `r` nor `t` contains a '.' or a '/'. */
  lemma RoundTrip(dir: string, runId: string, runType: string)
    ensures Parseable(FileName(dir, runId, runType))
    ensures var e := ParseRunFile(FileName(dir, runId, runType));
            e.run == runId && e.source == runType <==> Plain(runId) && Plain(runType)
  {
    FileNameBasename(dir, runId, runType);
    if Plain(runId) && Plain(runType) {
      PlainFileNameBasename(dir, runId, runType);
      PlainNameFields(runId, runType);
    }
  }

  /** With '.'-free, '/'-free ids and types, distinct keys get distinct files. */
  lemma FileNameInjective(dir: string, r1: string, t1: string, r2: string, t2: string)
    requires Plain(r1) && Plain(t1) && Plain(r2) && Plain(t2)
    requires FileName(dir, r1, t1) == FileName(dir, r2, t2)
    ensures r1 == r2 && t1 == t2
  {
    RoundTrip(dir, r1, t1);
    RoundTrip(dir, r2, t2);
  }

  /** A '.' moved between the id and the runType names the same file. */
  lemma FileNameCollision(dir: string, r: string, t: string, u: string)
    ensures FileName(dir, r + "." + t, u) == FileName(dir, r, t + "." + u)
  {
    assert (r + "." + t) + "." + u == r + "." + (t + "." + u);
  }

  /** A run id with a '.' in it is read back wrongly: saved as `a.b` under
      type `t`, the run is listed as run `a` of source `b`. */
  lemma DottedRunIdMisread(dir: string, a: string, b: string, t: string)
    requires Plain(a) && Plain(b) && Plain(t)
    ensures Parseable(FileName(dir, a + "." + b, t))
    ensures var e := ParseRunFile(FileName(dir, a + "." + b, t));
            e.run == a && e.source == b && e.run != a + "." + b
  {
    var path := FileName(dir, a + "." + b, t);
    FileNameBasename(dir, a + "." + b, t);
    PlainFileNameBasename(dir, a + "." + b, t);
    var tail := b + "." + t + "." + Suffix;
    assert Basename(path) == a + "." + tail;
    PlainNameFields(b, t);
    ExplodeAtFirstDot(a, tail);
    assert (a + "." + b)[|a|] == '.';
  }

  /** Every scanned path has the base name after `dir/` and can be parsed. */
  lemma ScannedPathParses(dir: string, path: Path)
    requires InRunDir(dir, path)
    ensures Basename(path) == path[|dir| + 1..]
    ensures Parseable(path)
  {
    var name := path[|dir| + 1..];
    assert path == dir + "/" + name;
    BasenameAfterSlash(dir, name);
    assert name[|name| - |Extension|] == '.';
  }

  /** The file of a run with a plain id and runType is picked up by the scan of
      the store's own directory exactly when that directory is non-empty and
      the id is non-empty (an empty id gives a hidden ".runType.xhprof"). */
  lemma FileNameScannedIff(dir: string, runId: string, runType: string)
    requires Plain(runId) && Plain(runType)
    ensures InRunDir(dir, FileName(dir, runId, runType)) <==> !IsEmpty(dir) && runId != ""
  {
    var name := runId + "." + runType + "." + Suffix;
    var path := FileName(dir, runId, runType);
    assert '/' !in name;
    if IsEmpty(dir) {
      assert path == name;
      if |path| > |dir| + 1 {
        assert path[|dir|] != '/' by { assert path[|dir|] in name; }
        assert (dir + "/")[|dir|] == '/';
      }
    } else {
      assert path == dir + "/" + name;
      assert path[..|dir| + 1] == dir + "/";
      assert path[|dir| + 1..] == name;
      assert name[|name| - |Extension|..] == Extension;
      if runId == "" {
        assert name[0] == '.';
      } else {
        assert name[0] == runId[0] && runId[0] in runId;
      }
    }
  }
}
