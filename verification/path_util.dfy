/*
 * `JPASSUtil.noSuffix` and `getSuffix`: splitting a file path at its last
 * '.'.
 */
module PathUtil {
  import opened Common

  /** `s.lastIndexOf(c)`: the position of the last `c` in `s`, or -1. */
  function LastIndexOf(s: string, c: char): (r: int)
    ensures -1 <= r < |s|
    ensures r == -1 <==> c !in s
    ensures 0 <= r ==> s[r] == c
    ensures forall i :: r < i < |s| ==> s[i] != c
  {
    if |s| == 0 then -1
    else if s[|s| - 1] == c then |s| - 1
    else
      var r := LastIndexOf(s[..|s| - 1], c);
      assert s == s[..|s| - 1] + [s[|s| - 1]];
      r
  }

  /** `noSuffix(path)`: the path without its last '.' and what follows. */
  function NoSuffix(path: string): (r: string)
    ensures '.' !in path ==> r == path
    ensures '.' in path ==> |r| < |path| && path[|r|] == '.' && '.' !in path[|r| + 1..]
    ensures r == path[..|r|]
  {
    var lim := LastIndexOf(path, '.');
    if lim < 0 then path else path[..lim]
  }

  /** `getSuffix(path)`: what follows the last '.', or null when there is
      none. */
  function GetSuffix(path: string): (r: Option<string>)
    ensures r.None? <==> '.' !in path
    ensures r.Some? ==> '.' !in r.value && |r.value| < |path|
    ensures r.Some? ==> path[|path| - |r.value| - 1] == '.' && path[|path| - |r.value|..] == r.value
  {
    var start := LastIndexOf(path, '.') + 1;
    if start == 0 then None else Some(path[start..])
  }

  /** A path ending in '.' has the empty suffix, not none. */
  lemma TrailingDot(path: string)
    requires 0 < |path| && path[|path| - 1] == '.'
    ensures GetSuffix(path) == Some("")
  {
  }

  /** Where there is a suffix, the two halves and the '.' rebuild the
      path. */
  lemma {:induction false} SplitRebuilds(path: string)
    requires '.' in path
    ensures NoSuffix(path) + "." + GetSuffix(path).value == path
  {
    var lim := LastIndexOf(path, '.');
    assert path == path[..lim] + [path[lim]] + path[lim + 1..];
  }
}
