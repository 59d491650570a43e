/**
 * The parts of `pathlib.PurePath` the agent relies on: `name`, `suffix`
 * and `stem`, and the `str.lower` applied to the suffix.  A path is the
 * string the directory listing yields for an entry.
 */
module Paths {

  /** Python's `str.rfind` for one character: the last index of `c` in `s`, or -1. */
  function LastIndexOf(s: string, c: char): (i: int)
    ensures -1 <= i < |s|
    ensures 0 <= i ==> s[i] == c
    ensures forall j :: i < j < |s| ==> s[j] != c
  {
    if s == [] then -1
    else if s[|s| - 1] == c then |s| - 1
    else LastIndexOf(s[..|s| - 1], c)
  }

  /** An occurrence of `c` followed by no other `c` is the last one. */
  lemma LastIndexOfUnique(s: string, c: char, k: nat)
    requires k < |s| && s[k] == c
    requires forall j :: k < j < |s| ==> s[j] != c
    ensures LastIndexOf(s, c) == k
  {
  }

  /** The last occurrence of `c` is the one followed by no other `c`. */
  lemma LastIndexOfSplit(a: string, c: char, b: string)
    requires c !in b
    ensures LastIndexOf(a + [c] + b, c) == |a|
  {
    NoLaterOccurrence(a, c, b);
    LastIndexOfUnique(a + [c] + b, c, |a|);
  }

  /** In `a + [c] + b` with no `c` in `b`, the `c` at index `|a|` is followed by no other. */
  lemma NoLaterOccurrence(a: string, c: char, b: string)
    requires c !in b
    ensures (a + [c] + b)[|a|] == c
    ensures forall j :: |a| < j < |a + [c] + b| ==> (a + [c] + b)[j] != c
  {
    var s := a + [c] + b;
    assert forall j :: |a| < j < |s| ==> s[j] == b[j - |a| - 1];
  }

  /** `PurePath.name`: the final component, everything after the last '/'. */
  function Name(path: string): (r: string)
    ensures '/' !in r
    ensures |r| <= |path|
  {
    if path == [] || path[|path| - 1] == '/' then []
    else Name(path[..|path| - 1]) + [path[|path| - 1]]
  }

  /** The name is what follows the last '/' of the path, or the whole path when it has none. */
  lemma {:induction false} NameIsFinalComponent(path: string)
    ensures path[|path| - |Name(path)|..] == Name(path)
    ensures |Name(path)| < |path| ==> path[|path| - |Name(path)| - 1] == '/'
    ensures |Name(path)| == |path| ==> '/' !in path
  {
    if path != [] && path[|path| - 1] != '/' {
      var init := path[..|path| - 1];
      NameIsFinalComponent(init);
      assert path == init + [path[|path| - 1]];
    }
  }

  /** A string without '/' is its own name. */
  lemma {:induction false} NameOfPlain(s: string)
    requires '/' !in s
    ensures Name(s) == s
  {
    if s != [] {
      var init := s[..|s| - 1];
      assert '/' !in init by {
        assert forall i :: 0 <= i < |init| ==> init[i] == s[i];
      }
      NameOfPlain(init);
      assert s == init + [s[|s| - 1]];
    }
  }

  /** The name of `dir/name` is `name`. */
  lemma {:induction false} NameOfJoin(dir: string, name: string)
    requires '/' !in name
    ensures Name(dir + "/" + name) == name
  {
    var path := dir + "/" + name;
    if name == [] {
      assert path[|path| - 1] == '/';
    } else {
      var init := name[..|name| - 1];
      assert '/' !in init by {
        assert forall i :: 0 <= i < |init| ==> init[i] == name[i];
      }
      NameOfJoin(dir, init);
      assert path[..|path| - 1] == dir + "/" + init;
      assert path[|path| - 1] == name[|name| - 1];
      assert name == init + [name[|name| - 1]];
    }
  }

  /** The name of `dir/base.ext` is `base.ext`. */
  lemma NameOfFile(dir: string, base: string, ext: string)
    requires '/' !in base && '/' !in ext
    ensures Name(dir + "/" + base + "." + ext) == base + "." + ext
  {
    NoSlashInFile(base, ext);
    NameOfJoin(dir, base + "." + ext);
    JoinFile(dir, base, ext);
  }

  lemma NoSlashInFile(base: string, ext: string)
    requires '/' !in base && '/' !in ext
    ensures '/' !in base + "." + ext
  {
  }

  lemma JoinFile(dir: string, base: string, ext: string)
    ensures dir + "/" + base + "." + ext == dir + "/" + (base + "." + ext)
  {
  }

  /**
   * `PurePath.suffix` of a final component: from its last '.' on, provided
   * that dot is neither the first nor the last character; otherwise empty.
   */
  function Suffix(name: string): (r: string)
    ensures r == "" || (|r| >= 2 && r[0] == '.' && '.' !in r[1..])
  {
    var i := LastIndexOf(name, '.');
    if 0 < i < |name| - 1 then
      assert forall j :: 1 <= j < |name| - i ==> name[i..][j] == name[i + j];
      name[i..]
    else ""
  }

  /** A non-empty suffix is a proper tail of the name. */
  lemma SuffixIsTail(name: string)
    ensures Suffix(name) != "" ==> |Suffix(name)| < |name| && name[|name| - |Suffix(name)|..] == Suffix(name)
  {
  }

  /** `PurePath.stem`: the final component without its suffix. */
  function Stem(name: string): string
  {
    var i := LastIndexOf(name, '.');
    if 0 < i < |name| - 1 then name[..i] else name
  }

  /** The stem and the suffix together make up the name. */
  lemma StemAndSuffix(name: string)
    ensures Stem(name) + Suffix(name) == name
  {
  }

  /** A name made of a dot-free extension after a non-empty base parses back into the two. */
  lemma {:induction false} SuffixOfJoin(base: string, ext: string)
    requires base != [] && ext != [] && '.' !in ext
    ensures Suffix(base + "." + ext) == "." + ext
    ensures Stem(base + "." + ext) == base
  {
    LastIndexOfSplit(base, '.', ext);
    assert base + "." + ext == base + ['.'] + ext;
    var n := base + "." + ext;
    assert n[|base|..] == "." + ext;
    assert n[..|base|] == base;
  }

  function LowerChar(c: char): char
  {
    if 'A' <= c <= 'Z' then (c as int + 32) as char else c
  }

  /** `str.lower`, restricted to ASCII letters. */
  function Lower(s: string): (r: string)
    ensures |r| == |s|
    ensures forall i :: 0 <= i < |s| ==> r[i] == LowerChar(s[i])
    ensures forall i :: 0 <= i < |r| ==> !('A' <= r[i] <= 'Z')
  {
    if s == [] then [] else [LowerChar(s[0])] + Lower(s[1..])
  }

  /** Lower-casing twice is lower-casing once. */
  lemma LowerIdempotent(s: string)
    ensures Lower(Lower(s)) == Lower(s)
  {
    assert forall i :: 0 <= i < |s| ==> Lower(Lower(s))[i] == Lower(s)[i];
  }
}
