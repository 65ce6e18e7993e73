/**
 * The name of the Parquet file written for one batch:
 * `"./data/parquet/" + os.path.basename(f).replace(".json", "") + ".parquet"`.
 */
module Naming {

  const OutputDir := "./data/parquet/"
  const JsonExt := ".json"
  const ParquetExt := ".parquet"

  /**
   * `os.path.basename` on a POSIX path: the longest suffix without a `/`.
   */
  function Basename(path: string): (b: string)
    ensures |b| <= |path| && path[|path| - |b|..] == b
    ensures '/' !in b
    ensures |b| == |path| || path[|path| - |b| - 1] == '/'
  {
    if path == [] || path[|path| - 1] == '/' then []
    else Basename(path[..|path| - 1]) + [path[|path| - 1]]
  }

  /** `s` has `.json` starting at position `i`. */
  predicate JsonAt(s: string, i: int) {
    0 <= i && i + 5 <= |s|
    && s[i] == '.' && s[i + 1] == 'j' && s[i + 2] == 's' && s[i + 3] == 'o' && s[i + 4] == 'n'
  }

  predicate NoJson(s: string) {
    forall i :: 0 <= i <= |s| ==> !JsonAt(s, i)
  }

  /**
   * `s.replace(".json", "")`: scanning left to right, every non-overlapping occurrence is
   * deleted; what is left is not scanned again.
   */
  function DeleteJson(s: string): (r: string)
    ensures |r| <= |s|
  {
    if |s| < |JsonExt| then s
    else if JsonAt(s, 0) then DeleteJson(s[|JsonExt|..])
    else [s[0]] + DeleteJson(s[1..])
  }

  /**
   * The output path written for the batch read from `file`: the basename with every `.json`
   * deleted, directly inside the output directory and with the `.parquet` extension.
   */
  function OutputPath(file: string): (r: string)
    ensures |r| >= |OutputDir| + |ParquetExt|
    ensures r[..|OutputDir|] == OutputDir && r[|r| - |ParquetExt|..] == ParquetExt
    ensures '/' !in r[|OutputDir|..|r| - |ParquetExt|]
  {
    var stem := DeleteJson(Basename(file));
    DeleteJsonKeepsSlashes(Basename(file));
    var r := OutputDir + stem + ParquetExt;
    assert r[|OutputDir|..|r| - |ParquetExt|] == stem;
    r
  }

  /** A string without `.json` is left alone. */
  lemma {:induction false} DeleteJsonNoJson(s: string)
    requires NoJson(s)
    ensures DeleteJson(s) == s
  {
    if |s| >= |JsonExt| {
      assert !JsonAt(s, 0);
      assert forall i :: JsonAt(s[1..], i) ==> JsonAt(s, i + 1);
      DeleteJsonNoJson(s[1..]);
    }
  }

  /**
   * An occurrence of `.json` right after a prefix without one is the first occurrence: it is
   * deleted and the scan goes on after it.
   */
  lemma {:induction false} DeleteJsonInfix(prefix: string, rest: string)
    requires NoJson(prefix)
    ensures DeleteJson(prefix + JsonExt + rest) == prefix + DeleteJson(rest)
  {
    var s := prefix + JsonExt + rest;
    if prefix == [] {
      assert s == JsonExt + rest;
      DeleteJsonDrop(rest);
    } else {
      // No occurrence can start inside `prefix`: one inside would be in `prefix`, and one that
      // straddles the boundary would need a proper suffix of ".json" to start with '.'.
      assert !JsonAt(s, 0) by {
        if |prefix| >= |JsonExt| {
          assert !JsonAt(prefix, 0);
        } else {
          assert s[|prefix|] == '.';
        }
      }
      assert forall i :: JsonAt(prefix[1..], i) ==> JsonAt(prefix, i + 1);
      DeleteJsonInfix(prefix[1..], rest);
      assert s[1..] == prefix[1..] + JsonExt + rest;
    }
  }

  /** Deleting `.json` from `stem + ".json"` gives `stem` back when `stem` has no `.json`. */
  lemma DeleteJsonSuffix(stem: string)
    requires NoJson(stem)
    ensures DeleteJson(stem + JsonExt) == stem
  {
    DeleteJsonInfix(stem, []);
    assert stem + JsonExt + [] == stem + JsonExt;
  }

  /** For a batch file `…/X.json` whose `X` has no `.json`, the output is `./data/parquet/X.parquet`. */
  lemma OutputPathOfJsonFile(file: string, stem: string)
    requires Basename(file) == stem + JsonExt
    requires NoJson(stem)
    ensures OutputPath(file) == OutputDir + stem + ParquetExt
  {
    DeleteJsonSuffix(stem);
  }

  /** Deleting `.json` never introduces a `/`. */
  lemma {:induction false} DeleteJsonKeepsSlashes(s: string)
    requires '/' !in s
    ensures '/' !in DeleteJson(s)
  {
    if |s| >= |JsonExt| {
      if JsonAt(s, 0) {
        assert forall c :: c in s[|JsonExt|..] ==> c in s;
        DeleteJsonKeepsSlashes(s[|JsonExt|..]);
      } else {
        assert forall c :: c in s[1..] ==> c in s;
        DeleteJsonKeepsSlashes(s[1..]);
      }
    }
  }

  /** The basename of `dir + name`, for a `dir` ending in `/` and a `name` without one, is `name`. */
  lemma {:induction false} BasenameInDir(dir: string, name: string)
    requires dir != [] && dir[|dir| - 1] == '/'
    requires '/' !in name
    ensures Basename(dir + name) == name
  {
    if name == [] {
      assert dir + name == dir;
    } else {
      var init, last := name[..|name| - 1], name[|name| - 1];
      assert name == init + [last];
      assert dir + name == (dir + init) + [last];
      assert '/' !in init by {
        assert forall k :: 0 <= k < |init| ==> init[k] == name[k];
      }
      BasenameInDir(dir, init);
      BasenameSnoc(dir + init, last);
    }
  }

  /** Appending a character other than `/` extends the basename by it. */
  lemma BasenameSnoc(path: string, c: char)
    requires c != '/'
    ensures Basename(path + [c]) == Basename(path) + [c]
  {
    var whole := path + [c];
    assert whole[..|whole| - 1] == path;
  }

  const InputDir := "./data/json/"

  /** A character that does not start `.json` is kept. */
  lemma DeleteJsonKeep(c: char, s: string)
    requires c != '.' || |s| < 4 || s[0] != 'j' || s[1] != 's' || s[2] != 'o' || s[3] != 'n'
    ensures DeleteJson([c] + s) == [c] + DeleteJson(s)
  {
    var t := [c] + s;
    assert t[1..] == s;
    assert !JsonAt(t, 0);
  }

  /** A leading `.json` is deleted and the scan goes on after it. */
  lemma DeleteJsonDrop(s: string)
    ensures DeleteJson(JsonExt + s) == DeleteJson(s)
  {
    var t := JsonExt + s;
    assert JsonAt(t, 0);
    assert t[|JsonExt|..] == s;
  }

  /**
   * Every occurrence is deleted, not only the extension: `a.json` followed by `b.json` names
   * `ab.parquet`, so `x.json.y.json` (`b` = `.y`) names `x.y.parquet`.
   */
  lemma InnerJsonDeleted(a: string, b: string)
    requires NoJson(a) && NoJson(b) && '/' !in a && '/' !in b
    ensures OutputPath(InputDir + (a + JsonExt + b + JsonExt)) == OutputDir + a + b + ParquetExt
  {
    var name := a + JsonExt + b + JsonExt;
    assert '/' !in name;
    BasenameInDir(InputDir, name);
    assert name == a + JsonExt + (b + JsonExt);
    DeleteJsonInfix(a, b + JsonExt);
    DeleteJsonSuffix(b);
  }

  /** Two different batch files, `x.json` and `x.json.json`, get the same output path; the later one overwrites. */
  lemma OutputPathsCollide(x: string)
    requires NoJson(x) && '/' !in x
    ensures OutputPath(InputDir + (x + JsonExt)) == OutputPath(InputDir + (x + JsonExt + JsonExt))
    ensures x + JsonExt != x + JsonExt + JsonExt
  {
    assert '/' !in x + JsonExt;
    assert '/' !in x + JsonExt + JsonExt;
    BasenameInDir(InputDir, x + JsonExt);
    BasenameInDir(InputDir, x + JsonExt + JsonExt);
    DeleteJsonSuffix(x);
    DeleteJsonInfix(x, JsonExt);
    DeleteJsonDrop([]);
    assert JsonExt + [] == JsonExt;
  }

  /** The deletion does not rescan its result: removing one `.json` can leave another. */
  lemma DeletionDoesNotRescan()
    ensures DeleteJson(".js.jsonon") == JsonExt
  {
    var on := ['o', 'n'];
    assert ".js.jsonon" == ['.'] + (['j'] + (['s'] + (JsonExt + on)));
    DeleteJsonKeep('.', ['j'] + (['s'] + (JsonExt + on)));
    DeleteJsonKeep('j', ['s'] + (JsonExt + on));
    DeleteJsonKeep('s', JsonExt + on);
    DeleteJsonDrop(on);
    assert DeleteJson(on) == on;
    assert ['.'] + (['j'] + (['s'] + on)) == JsonExt;
  }
}
