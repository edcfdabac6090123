/**
 * The three PHP built-ins the run store leans on, stated over `string`:
 * `empty()` on a string, `explode('.', s)` and `basename(path)`.
 * Only the behaviour the store relies on is modelled: the separator of
 * `explode` is always '.', and `basename` uses '/' as its only separator.
 */
module PhpStrings {

  datatype Option<+T> = None | Some(value: T)

  /** PHP's `empty($s)` for a string: true for "" and for "0". */
  predicate IsEmpty(s: string) {
    s == "" || s == "0"
  }

  /** `empty($x)` for a value that may also be null (or `false`, as `ini_get` gives). */
  predicate IsEmptyOrNull(x: Option<string>) {
    x.None? || IsEmpty(x.value)
  }

  // ---------------------------------------------------------------------
  // explode('.', s)
  // ---------------------------------------------------------------------

  /** `explode('.', s)`: the '.'-separated fields of `s`, always at least one. */
  function Explode(s: string): (fields: seq<string>)
    ensures |fields| >= 1
    ensures forall i :: 0 <= i < |fields| ==> '.' !in fields[i]
    decreases |s|
  {
    if s == [] then [""]
    else
      var rest := Explode(s[1..]);
      if s[0] == '.' then [""] + rest
      else [[s[0]] + rest[0]] + rest[1..]
  }

  /** `implode('.', fields)`: the inverse of `Explode`. */
  function Implode(fields: seq<string>): string
    requires |fields| >= 1
  {
    if |fields| == 1 then fields[0] else fields[0] + "." + Implode(fields[1..])
  }

  /** Joining the fields again gives back the exploded string. */
  lemma {:induction false} ImplodeExplode(s: string)
    ensures Implode(Explode(s)) == s
    decreases |s|
  {
    if s != [] {
      ImplodeExplode(s[1..]);
      var rest := Explode(s[1..]);
      if s[0] != '.' && |rest| > 1 {
        assert Explode(s)[1..] == rest[1..];
      }
    }
  }

  /** A string without '.' is a single field. */
  lemma {:induction false} ExplodeWithoutDot(s: string)
    requires '.' !in s
    ensures Explode(s) == [s]
    decreases |s|
  {
    if s != [] {
      assert '.' !in s[1..] by {
        forall k | 0 <= k < |s[1..]| ensures s[1..][k] != '.' {
          assert s[1..][k] == s[k + 1];
        }
      }
      ExplodeWithoutDot(s[1..]);
      assert [s[0]] + s[1..] == s;
    }
  }

  /** A '.'-free first field is split off at the first '.'. */
  lemma {:induction false} ExplodeAtFirstDot(a: string, b: string)
    requires '.' !in a
    ensures Explode(a + "." + b) == [a] + Explode(b)
    decreases |a|
  {
    var s := a + "." + b;
    if a == [] {
      assert s[0] == '.' && s[1..] == b;
    } else {
      assert '.' !in a[1..] by {
        forall k | 0 <= k < |a[1..]| ensures a[1..][k] != '.' {
          assert a[1..][k] == a[k + 1];
        }
      }
      ExplodeAtFirstDot(a[1..], b);
      assert s[0] == a[0] && s[1..] == a[1..] + "." + b;
      assert [a[0]] + a[1..] == a;
    }
  }

  /** Exploding a join of '.'-free fields gives back the fields. */
  lemma {:induction false} ExplodeImplode(fields: seq<string>)
    requires |fields| >= 1
    requires forall i :: 0 <= i < |fields| ==> '.' !in fields[i]
    ensures Explode(Implode(fields)) == fields
    decreases |fields|
  {
    if |fields| == 1 {
      ExplodeWithoutDot(fields[0]);
    } else {
      ExplodeImplode(fields[1..]);
      ExplodeAtFirstDot(fields[0], Implode(fields[1..]));
      assert [fields[0]] + fields[1..] == fields;
    }
  }

  /** A string with a '.' in it explodes into at least two fields. */
  lemma {:induction false} ExplodeWithDot(s: string)
    requires '.' in s
    ensures |Explode(s)| >= 2
    decreases |s|
  {
    if s[0] != '.' {
      assert '.' in s[1..] by {
        var k :| 0 <= k < |s| && s[k] == '.';
        assert s[1..][k - 1] == '.';
      }
      ExplodeWithDot(s[1..]);
    }
  }

  /** Every field of `explode` is made of characters of the input only. */
  lemma {:induction false} ExplodeFieldsWithin(s: string, c: char)
    requires c !in s
    ensures forall i :: 0 <= i < |Explode(s)| ==> c !in Explode(s)[i]
    decreases |s|
  {
    if s != [] {
      assert c !in s[1..] by {
        forall k | 0 <= k < |s[1..]| ensures s[1..][k] != c {
          assert s[1..][k] == s[k + 1];
        }
      }
      ExplodeFieldsWithin(s[1..], c);
    }
  }

  // ---------------------------------------------------------------------
  // basename(path)
  // ---------------------------------------------------------------------

  /** `path` with every trailing '/' removed. */
  function TrimTrailingSlashes(path: string): (trimmed: string)
    ensures |trimmed| <= |path| && trimmed == path[..|trimmed|]
    ensures trimmed == [] || trimmed[|trimmed| - 1] != '/'
    ensures forall k :: |trimmed| <= k < |path| ==> path[k] == '/'
  {
    if path != [] && path[|path| - 1] == '/' then TrimTrailingSlashes(path[..|path| - 1])
    else path
  }

  /** What follows the last '/' of `path` (all of `path` when it has none). */
  function LastComponent(path: string): (name: string)
    ensures '/' !in name
  {
    if path == [] || path[|path| - 1] == '/' then []
    else LastComponent(path[..|path| - 1]) + [path[|path| - 1]]
  }

  /** The last component is the '/'-free tail of `path`: it ends `path`, and
      is preceded by a '/' or by nothing. */
  lemma {:induction false} LastComponentIsTail(path: string)
    ensures var name := LastComponent(path);
            && |name| <= |path| && name == path[|path| - |name|..]
            && (|name| == |path| || path[|path| - |name| - 1] == '/')
    decreases |path|
  {
    if path != [] && path[|path| - 1] != '/' {
      var init := path[..|path| - 1];
      LastComponentIsTail(init);
      var name := LastComponent(init);
      assert path[|path| - |name| - 1..] == init[|init| - |name|..] + [path[|path| - 1]];
    }
  }

  /** `basename($path)`: trailing slashes are ignored, then the last component is kept. */
  function Basename(path: string): string {
    LastComponent(TrimTrailingSlashes(path))
  }

  /** The last component of a path that ends in `/name` is `name`. */
  lemma {:induction false} LastComponentAfterSlash(prefix: string, name: string)
    requires '/' !in name
    ensures LastComponent(prefix + "/" + name) == name
    decreases |name|
  {
    var p := prefix + "/" + name;
    if name == [] {
      assert p[|p| - 1] == '/';
    } else {
      var init := name[..|name| - 1];
      assert '/' !in init by {
        forall k | 0 <= k < |init| ensures init[k] != '/' {
          assert init[k] == name[k];
        }
      }
      LastComponentAfterSlash(prefix, init);
      assert p[..|p| - 1] == prefix + "/" + init;
      assert init + [name[|name| - 1]] == name;
    }
  }

  /** A path with no '/' is its own last component. */
  lemma {:induction false} LastComponentWithoutSlash(path: string)
    requires '/' !in path
    ensures LastComponent(path) == path
    decreases |path|
  {
    if path != [] {
      var init := path[..|path| - 1];
      assert '/' !in init by {
        forall k | 0 <= k < |init| ensures init[k] != '/' {
          assert init[k] == path[k];
        }
      }
      LastComponentWithoutSlash(init);
      assert init + [path[|path| - 1]] == path;
    }
  }

  /** `basename("prefix/name")` is `name` when `name` is non-empty and has no '/'. */
  lemma BasenameAfterSlash(prefix: string, name: string)
    requires '/' !in name && name != []
    ensures Basename(prefix + "/" + name) == name
  {
    var p := prefix + "/" + name;
    assert p[|p| - 1] == name[|name| - 1];
    LastComponentAfterSlash(prefix, name);
  }

  /** `basename(name)` is `name` when `name` is non-empty and has no '/'. */
  lemma BasenameWithoutSlash(name: string)
    requires '/' !in name && name != []
    ensures Basename(name) == name
  {
    assert name[|name| - 1] in name;
    LastComponentWithoutSlash(name);
  }
}
