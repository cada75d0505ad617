/** The parts of Go's `path/filepath` package that the loader uses, for '/' separated paths. */
module GoFilepath {
  import opened GoStrings

  /** `p` without its trailing separators. */
  function TrimTrailingSlashes(p: string): (r: string)
    ensures |r| <= |p| && r == p[..|r|]
    ensures r == [] || r[|r| - 1] != '/'
    ensures forall i :: |r| <= i < |p| ==> p[i] == '/'
  {
    if p != [] && p[|p| - 1] == '/' then TrimTrailingSlashes(p[..|p| - 1]) else p
  }

  /** The part of `p` after its last separator. */
  function AfterLastSlash(p: string): (r: string)
    ensures |r| <= |p| && r == p[|p| - |r|..]
    ensures '/' !in r
    ensures |r| < |p| ==> p[|p| - |r| - 1] == '/'
  {
    if p == [] || p[|p| - 1] == '/' then []
    else
      var r := AfterLastSlash(p[..|p| - 1]) + [p[|p| - 1]];
      assert p[..|p| - 1][|p| - |r|..] + [p[|p| - 1]] == p[|p| - |r|..];
      r
  }

  /**
   * filepath.Base: the last element of `path` once trailing separators are
   * dropped; "." for the empty path and "/" for a path of separators only.
   */
  function Base(path: string): (b: string)
    ensures b != ""
    ensures b == "/" || '/' !in b
    ensures path != "" ==> b == "/" || HasSuffix(TrimTrailingSlashes(path), b)
    ensures path == "" ==> b == "."
    ensures b == "/" <==> path != "" && TrimTrailingSlashes(path) == ""
    ensures path != "" && b != "/" ==>
      var q := TrimTrailingSlashes(path);
      |b| <= |q| && (|b| == |q| || q[|q| - |b| - 1] == '/')
  {
    if path == "" then "."
    else
      var q := TrimTrailingSlashes(path);
      if q == "" then "/" else AfterLastSlash(q)
  }

  /**
   * filepath.Join(dir, elem) for one clean element `elem`: the empty and the
   * "." directory are dropped, otherwise a single separator goes between the two.
   */
  function Join(dir: string, elem: string): (p: string)
    ensures HasSuffix(p, elem)
    ensures dir == "" || dir == "." ==> p == elem
    ensures dir != "" && dir != "." ==>
      && |dir| + |elem| <= |p| <= |dir| + 1 + |elem|
      && (|p| == |dir| + |elem| <==> dir[|dir| - 1] == '/')
      && p[..|dir|] == dir && p[|p| - |elem| - 1] == '/'
  {
    if dir == "" || dir == "." then elem
    else if dir[|dir| - 1] == '/' then dir + elem
    else dir + "/" + elem
  }

  /**
   * A path in the form filepath.Clean returns: "/", ".", or separated
   * elements with no empty element except the one before a leading
   * separator, no "." element, and ".." only in a run at the start of a
   * relative path; so no doubled or trailing separator either.
   */
  predicate Clean(p: string)
  {
    || p == "/"
    || p == "."
    || (&& p != ""
        && var parts := Split(p, '/');
        forall i :: 0 <= i < |parts| ==>
          && (parts[i] == "" ==> i == 0 && |parts| > 1)
          && parts[i] != "."
          && (parts[i] == ".." ==> parts[0] != "" && forall j :: 0 <= j < i ==> parts[j] == ".."))
  }
}
