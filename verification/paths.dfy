/** The `pathlib` operations the source applies to POSIX path strings:
    `Path(p).name`, `Path(p).parent.name`, `Path(p).stem` and `/` joining. */
module Paths {
  import opened Text

  function DropTrailingSlashes(p: string): (r: string)
    ensures |r| <= |p| && r == p[..|r|]
    ensures r == [] || r[|r| - 1] != '/'
    ensures forall i :: |r| <= i < |p| ==> p[i] == '/'
  {
    if |p| > 0 && p[|p| - 1] == '/' then DropTrailingSlashes(p[..|p| - 1]) else p
  }

  /** Index of the last `c` in `s`, or -1 when there is none. */
  function LastIndex(s: string, c: char): (i: int)
    ensures -1 <= i < |s|
    ensures i >= 0 ==> s[i] == c
    ensures forall j :: i < j < |s| ==> s[j] != c
  {
    if s == [] then -1
    else if s[|s| - 1] == c then |s| - 1
    else LastIndex(s[..|s| - 1], c)
  }

  /** `LastIndex` finds an occurrence after which the character does not recur. */
  lemma {:induction false} LastIndexAt(s: string, c: char, k: nat)
    requires k < |s| && s[k] == c
    requires forall j :: k < j < |s| ==> s[j] != c
    ensures LastIndex(s, c) == k
  {
    if k < |s| - 1 {
      LastIndexAt(s[..|s| - 1], c, k);
    }
  }

  /** `Path(p).name`: the last path component. */
  function Name(p: string): (r: string)
    ensures '/' !in r
    ensures '/' !in p ==> r == p
  {
    var s := DropTrailingSlashes(p);
    s[LastIndex(s, '/') + 1..]
  }

  /** The name of a path occurs in the path. */
  lemma NameOccursIn(p: string)
    ensures Contains(p, Name(p))
  {
    var s := DropTrailingSlashes(p);
    var i := LastIndex(s, '/') + 1;
    assert Name(p) == p[i..|s|];
    ContainsSlice(p, i, |s|);
  }

  /** `Path(p).parent.name`: the name of the directory holding the last component
      (empty when the path has a single component). */
  function ParentName(p: string): (r: string)
    ensures '/' !in r
    ensures '/' !in p ==> r == []
  {
    var s := DropTrailingSlashes(p);
    var i := LastIndex(s, '/');
    if i < 0 then [] else Name(s[..i])
  }

  /** `Path(p).stem`: the name without its last suffix; a leading dot or a
      trailing dot does not start a suffix. */
  function Stem(p: string): (r: string)
    ensures '/' !in r
    ensures |r| <= |Name(p)| && r == Name(p)[..|r|]
    ensures '.' !in Name(p) ==> r == Name(p)
  {
    var n := Name(p);
    var i := LastIndex(n, '.');
    if 0 < i < |n| - 1 then n[..i] else n
  }

  /** `Path(a) / b` rendered with forward slashes. */
  function JoinPath(a: string, b: string): string {
    a + "/" + b
  }

  /** The name of a joined path is the component that was joined. */
  lemma NameOfJoin(dir: string, n: string)
    requires n != [] && '/' !in n
    ensures Name(JoinPath(dir, n)) == n
  {
    var p := JoinPath(dir, n);
    assert DropTrailingSlashes(p) == p;
    assert p[|dir|] == '/';
    forall j | |dir| < j < |p| ensures p[j] != '/' {
      assert p[j] == n[j - |dir| - 1];
    }
    LastIndexAt(p, '/', |dir|);
    assert p[|dir| + 1..] == n;
  }

  /** The parent name of `dir/sub/file` is `sub`. */
  lemma ParentNameOfJoin(dir: string, sub: string, file: string)
    requires sub != [] && '/' !in sub
    requires file != [] && '/' !in file
    ensures ParentName(JoinPath(JoinPath(dir, sub), file)) == sub
  {
    var p := JoinPath(JoinPath(dir, sub), file);
    var k := |dir| + 1 + |sub|;
    assert DropTrailingSlashes(p) == p;
    assert p[k] == '/';
    forall j | k < j < |p| ensures p[j] != '/' {
      assert p[j] == file[j - k - 1];
    }
    LastIndexAt(p, '/', k);
    assert p[..k] == JoinPath(dir, sub);
    NameOfJoin(dir, sub);
  }

  /** The stem of `dir/base.ext` is `base` when neither part has a dot. */
  lemma StemOfJoin(dir: string, base: string, ext: string)
    requires base != [] && '/' !in base && '.' !in base
    requires ext != [] && '/' !in ext && '.' !in ext
    ensures Stem(JoinPath(dir, base + "." + ext)) == base
  {
    var file := base + "." + ext;
    assert '/' !in file by {
      forall j | 0 <= j < |file| ensures file[j] != '/' {
        if j < |base| { assert file[j] == base[j]; }
        else if j > |base| { assert file[j] == ext[j - |base| - 1]; }
      }
    }
    NameOfJoin(dir, file);
    assert file[|base|] == '.';
    forall j | |base| < j < |file| ensures file[j] != '.' {
      assert file[j] == ext[j - |base| - 1];
    }
    LastIndexAt(file, '.', |base|);
    assert file[..|base|] == base;
  }
}
