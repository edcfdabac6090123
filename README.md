# XHProf run store, modelled in Dafny

This project models the run store of XHProf, found in `xhprof_lib/utils/xhprof_runs.php`. The store is the `iXHProfRuns` contract and its filesystem implementation `XHProfRuns_Default`. A profiling run is saved under a pair `(run id, type)`, where the type is the namespace or "source". The run goes into one file named `<run id>.<type>.xhprof` in the store's directory. `get_run` reads a run back. The listing queries scan the directory, sort the files newest first, and read each file name back into a `(run, source)` pair.

The model has four modules:

- `PhpStrings` (`php_strings.dfy`) covers the PHP built-ins the store relies on. These are `empty()` on a string, where both "" and "0" count as empty, `explode('.', s)` with its inverse `implode`, and `basename`.
- `RunFileNames` (`run_file_names.dfy`) covers the file-name grammar:
  - `file_name` builds a path from a directory, run id and type;
  - the glob match decides which paths the scan picks up;
  - `list($run, $source) = explode('.', basename($file))` reads a path back.

  Its main result is the round trip. Decoding the base name of `file_name(r, t)` gives back `(r, t)` exactly when neither `r` nor `t` contains a '.' or a '/'. A second lemma covers a run id that contains a '.': a run saved as `a.b` of type `t` is read back as run `a` of source `b`. Its id is lost, and so is its type unless `b` equals it.
- `RunListing` (`run_listing.dfy`) holds specification functions for what the listing queries return, with lemmas about them:
  - the scan returns each run file exactly once, newest first;
  - the flat list is one parsed row per scanned file;
  - the groups by source partition the scan, and each group keeps scan order.
- `XHProfRuns` (`xhprof_runs.dfy`) models the class `XHProfRunsDefault`:
  - its `dir` field is set by the constructor's fallback chain;
  - it holds a shared `FileSystem` object, a map from path to payload and mtime;
  - an `errors` log collects the messages passed to `xhprof_error`.

  `save_run` and `get_run` are methods that change or read that state. `get_run_files` gathers the matching paths and sorts them in place in an array by mtime. `get_run_list`, `get_run_files_by_source` and the row filter of `list_runs` are loops proved against the `RunListing` functions. Lemmas and small client methods state what the store does as a keyed map over `(run id, type)`:
  - a save overwrites;
  - saving a plain key (no '.' and no '/' in id or type) leaves every other plain key untouched (`SaveKeepsOtherRuns`);
  - moving a '.' between id and type names the same file, so saving `a.b`/`c` overwrites `a`/`b.c` (`SaveOverwritesDottedNeighbour`);
  - a missing key gives null and "Invalid Run Id";
  - a failed save still returns its id.

Inputs that come from the environment are parameters:
- the constructor argument, the `xhprof.output_dir` ini value (`ini_get`) and `sys_get_temp_dir()`;
- the id `uniqid()` would produce inside `gen_run_id`;
- whether `fopen` succeeds;
- the modification time a write leaves.

The model follows the code in these points:
- the description `get_run` returns is `XHProf Run (Namespace=<type>)`;
- an empty or "0" directory drops the `dir/` prefix from the file name, but the scan still uses `dir + "/"`;
- "0" counts as a missing directory;
- a stray file whose name has a single field is not skipped by the code. No scanned file can have a single field, because every match ends in ".xhprof".

## Model

| member | source | states |
|---|---|---|
| PhpStrings.Explode | xhprof_lib/utils/xhprof_runs.php:160 | `explode('.', s)` yields at least one field and no field contains '.' |
| PhpStrings.ImplodeExplode | xhprof_lib/utils/xhprof_runs.php:160 | joining the fields of `explode('.', s)` with '.' gives back `s` |
| PhpStrings.ExplodeImplode | xhprof_lib/utils/xhprof_runs.php:160 | exploding a '.'-join of '.'-free fields gives back those fields |
| PhpStrings.ExplodeWithDot | xhprof_lib/utils/xhprof_runs.php:160 | a string containing '.' explodes into at least two fields, so `list($run, $source)` has both |
| PhpStrings.BasenameAfterSlash | xhprof_lib/utils/xhprof_runs.php:160 | `basename("prefix/name")` is `name` for a non-empty, '/'-free name |
| PhpStrings.TrimTrailingSlashes | xhprof_lib/utils/xhprof_runs.php:160 | the first step of `basename`: the result is a prefix of the path that does not end in '/', and only '/' characters were removed |
| PhpStrings.LastComponentIsTail | xhprof_lib/utils/xhprof_runs.php:160 | the second step of `basename`: the last component is a '/'-free tail of the path, preceded by a '/' or by nothing |
| RunFileNames.ParseRunFile | xhprof_lib/utils/xhprof_runs.php:160 | the parsed run and source contain neither '.' nor '/', and the entry keeps its path |
| RunFileNames.ParsedFieldsArePrefix | xhprof_lib/utils/xhprof_runs.php:160 | `run + "." + source` is a prefix of the base name and ends at the end of the base name or at a '.': they are its first two fields |
| RunFileNames.FileNameBasename | xhprof_lib/utils/xhprof_runs.php:77-85 | the base name of every `file_name` ends in ".xhprof", so it can always be parsed |
| RunFileNames.RoundTrip | xhprof_lib/utils/xhprof_runs.php:77-85 | parsing the base name of `file_name(dir, r, t)` gives `(r, t)` if and only if `r` and `t` contain no '.' and no '/' |
| RunFileNames.DottedRunIdMisread | xhprof_lib/utils/xhprof_runs.php:79 | a run saved as `a.b` of type `t` is read back as run `a` of source `b`: its id is lost, and its type too unless `b` equals it |
| RunFileNames.FileNameInjective | xhprof_lib/utils/xhprof_runs.php:77-85 | for ids and types without '.' or '/', equal file names mean equal `(run id, type)` keys |
| RunFileNames.FileNameCollision | xhprof_lib/utils/xhprof_runs.php:79 | keys `(r.t, u)` and `(r, t.u)` get the same file name |
| RunFileNames.ScannedPathParses | xhprof_lib/utils/xhprof_runs.php:149 | a path the glob matches has as base name the part after `dir/`, and that base name parses |
| RunFileNames.FileNameScannedIff | xhprof_lib/utils/xhprof_runs.php:81-83 | with a plain id and type, the glob of `dir` matches the run's file if and only if `dir` is not empty and the id is not "" |
| RunListing.ParseAll | xhprof_lib/utils/xhprof_runs.php:159-162 | one parsed row per path, same length and order |
| RunListing.OfSource | xhprof_lib/utils/xhprof_runs.php:170-172 | every entry in the group of `s` has source `s` and comes from the scan |
| RunListing.SourcesInOrder | xhprof_lib/utils/xhprof_runs.php:170-172 | the group keys have no duplicates, and every scanned row's source is a key |
| RunListing.ScanListsExactlyRunFiles | xhprof_lib/utils/xhprof_runs.php:149 | a path is in the scan if and only if it is a file on disk that the glob matches |
| RunListing.ScanPutsNewerFirst | xhprof_lib/utils/xhprof_runs.php:150-152 | a strictly newer file comes before a strictly older one in the scan |
| RunListing.OfSourceAppend | xhprof_lib/utils/xhprof_runs.php:170-172 | grouping keeps scan order: the group of `xs + ys` is the group of `xs` followed by the group of `ys` |
| RunListing.OfSourceComplete | xhprof_lib/utils/xhprof_runs.php:170-172 | every scanned row with source `s` is in the group of `s` |
| RunListing.SourcesInFirstOccurrenceOrder | xhprof_lib/utils/xhprof_runs.php:172 | keys come in order of first occurrence: for keys `i < j`, some row has key `i` as source before any row has key `j` |
| RunListing.SourceIsKeyIff | xhprof_lib/utils/xhprof_runs.php:172 | `s` is a key if and only if its group is non-empty |
| RunListing.GroupSizesSum | xhprof_lib/utils/xhprof_runs.php:167-175 | the group sizes add up to the number of scanned files |
| XHProfRuns.ResolveDir | xhprof_lib/utils/xhprof_runs.php:94-107 | fallback chain: a non-empty argument wins, else a non-empty ini value, else the temp dir with a warning; the result is non-empty whenever the temp dir is |
| XHProfRuns.XHProfRunsDefault.constructor | xhprof_lib/utils/xhprof_runs.php:87-108 | `dir` is the resolved directory, and the warning is logged exactly when the temp dir was used |
| XHProfRuns.XHProfRunsDefault.GetRun | xhprof_lib/utils/xhprof_runs.php:110-122 | if the file exists, returns its payload and "XHProf Run (Namespace=t)"; otherwise returns null, "Invalid Run Id = r" and logs "Could not find file"; the disk is never changed |
| XHProfRuns.XHProfRunsDefault.SaveRun | xhprof_lib/utils/xhprof_runs.php:124-146 | returns the caller's id, or the generated one when none was given; on success the file of `(id, type)` is replaced and nothing else changes; if `fopen` fails, the disk is unchanged and an error is logged |
| XHProfRuns.XHProfRunsDefault.GetRunFiles | xhprof_lib/utils/xhprof_runs.php:148-154 | the result is a permutation of exactly the glob-matched run files, by non-increasing mtime |
| XHProfRuns.XHProfRunsDefault.GetRunList | xhprof_lib/utils/xhprof_runs.php:156-164 | the rows follow a scan one to one: row `i` is the parse of scanned path `i` |
| XHProfRuns.XHProfRunsDefault.GetRunFilesBySource | xhprof_lib/utils/xhprof_runs.php:167-175 | keys in order of first occurrence; the group of `s` is exactly the scanned rows of source `s`, in scan order |
| XHProfRuns.XHProfRunsDefault.ListRunsRows | xhprof_lib/utils/xhprof_runs.php:213-219 | the rows shown for a requested source are exactly the scanned rows of that source, in scan order |
| XHProfRuns.SortNewestFirst | xhprof_lib/utils/xhprof_runs.php:150-152 | the `usort` permutes the array into non-increasing mtime order |
| XHProfRuns.SaveKeepsOtherRuns | xhprof_lib/utils/xhprof_runs.php:134-139 | saving a plain key leaves the file of every other plain key as it was |
| XHProfRuns.SaveOverwritesDottedNeighbour | xhprof_lib/utils/xhprof_runs.php:134-135 | saving run `a.b` of type `c` overwrites the different run `a` of type `b.c` |
| XHProfRuns.SavedRunIsListed | xhprof_lib/utils/xhprof_runs.php:134-160 | after a save with a plain, non-empty id into a non-empty directory, every scan lists the file and parses it back to the same id and type |
| XHProfRuns.ResolvedDirIsScanned | xhprof_lib/utils/xhprof_runs.php:94-107 | with a non-empty temp dir, the constructed store's scan matches the file a save writes for a plain (no '.', no '/'), non-empty id and a plain type |
| XHProfRuns.SaveThenGet | xhprof_lib/utils/xhprof_runs.php:110-146 | `get_run` after a successful `save_run` returns the saved payload and the namespace description |
| XHProfRuns.OverwriteThenGet | xhprof_lib/utils/xhprof_runs.php:124-146 | two saves under the same key leave only the second payload, which `get_run` returns |
| XHProfRuns.FailedSaveThenGet | xhprof_lib/utils/xhprof_runs.php:135-145 | a save whose `fopen` fails still returns the id and leaves the disk unchanged; when no file existed for the key, `get_run` then reports the id invalid (an existing file is left in place and would still be returned) |

## Left out

- The `iXHProfRuns` interface is not a separate declaration. The class's `GetRun` and `SaveRun` contracts are the contract it names.
- `serialize` and `unserialize` are left out: the payload is stored as is. Round-trip exactness of PHP's wire format is assumed, not modelled.
- `gen_run_id` / `uniqid()` is an oracle parameter (`generatedId`). The interface at xhprof_runs.php:47-50 promises a unique id, but `uniqid()` does not guarantee one; uniqueness is not modelled.
- Filesystem behaviour beyond a map from path to (payload, mtime) is left out. Paths are plain strings: there is no path normalisation and no working directory, so two spellings of one file (a relative `r.t.xhprof` written with an empty `dir`, and `/r.t.xhprof` when the working directory is `/`) are different keys, and `FileNameScannedIff` relies on that. It also covers partial `fwrite`s, `file_exists` on directories, glob metacharacters inside `dir`, `glob` failing, and where the clock comes from. `fopen` failing is a flag.
- The order in which `glob` returns paths before sorting is left unspecified (a nondeterministic choice). Windows '\\' separators and locale effects in `basename` are left out.
- XHProfRuns.XHProfRunsDefault.GetRunFiles: does not promise the order of files with equal mtimes. PHP 8's stable `usort` keeps `glob`'s order there, and that order is not modelled.
- The HTML output of `list_sources` and `list_runs` is presentation and is left out. So are `htmlentities`, `date`, `$_GET`, `$_SERVER` and the `is_dir` guard; the model has no directories. Only the row selection of `list_runs` is modelled, with the requested source as a parameter.
- `ini_get` and `sys_get_temp_dir` are constructor parameters. `xhprof_error` appends to the store's `errors` log, which starts empty.
- PHP arrays converting numeric-string keys to integer keys in `get_run_files_by_source` is left out. Key order is unaffected, and keys are modelled as strings. Run ids and types are strings only.
- A listed file name with a single '.'-field would give a null source in PHP. The model's parse requires two fields, which every glob-matched name has (`ScannedPathParses`).
- Concurrent writers and torn reads are left out, because the code does no locking.
- `examples/argument_functions.php` is a demo script with network, curl and PDO calls and no store logic. It is not part of this model.
