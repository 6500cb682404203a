/** Path-string helpers: `relativeFilePath` and the "add a '/' if missing" join. */
module Paths {
  import opened Types

  /** `p` is a prefix of `s`: the first `|p|` characters of `s` are those of `p`. */
  predicate StartsWith(s: string, p: string)
  {
    |p| <= |s| && s[..|p|] == p
  }

  /** Position of the last `c` in `s`, as `std::string::rfind` reports it. */
  function LastIndexOf(s: string, c: char): (r: Option<nat>)
    ensures r.None? <==> c !in s
    ensures r.Some? ==> r.value < |s| && s[r.value] == c && c !in s[r.value + 1..]
    decreases |s|
  {
    if s == [] then None
    else if s[|s| - 1] == c then Some(|s| - 1)
    else
      var r := LastIndexOf(s[..|s| - 1], c);
      assert s == s[..|s| - 1] + [s[|s| - 1]];
      assert r.Some? ==> s[r.value + 1..] == s[..|s| - 1][r.value + 1..] + [s[|s| - 1]];
      r
  }

  /**
   * The name `rel` placed in the directory of `base`: everything after the
   * last '/' of `base` is replaced by `rel`; without a '/', `rel` itself.
   */
  function RelativeFilePath(base: string, rel: string): (r: string)
    ensures '/' !in base ==> r == rel
    ensures '/' in base ==>
      var d := |r| - |rel|;
      0 < d <= |base| && r == base[..d] + rel && base[d - 1] == '/' && '/' !in base[d..]
  {
    match LastIndexOf(base, '/')
    case None => rel
    // everything after the last '/' is replaced by `rel`
    case Some(i) => base[..i + 1] + rel
  }

  /**
   * Replacing the file name twice is replacing it once: the directory part
   * of the first result is that of `base`, provided the first name holds no '/'.
   */
  lemma RelativeFilePathTwice(base: string, first: string, second: string)
    requires '/' !in first
    ensures RelativeFilePath(RelativeFilePath(base, first), second) == RelativeFilePath(base, second)
  {
  }

  /** `dir` with a '/' appended unless it already ends in one. */
  function WithSlash(dir: string): (r: string)
    requires dir != []
    ensures |dir| <= |r| <= |dir| + 1 && r[..|dir|] == dir && r[|r| - 1] == '/'
    ensures |r| == |dir| <==> dir[|dir| - 1] == '/'
  {
    if dir[|dir| - 1] == '/' then dir else dir + "/"
  }
}
