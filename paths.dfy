/** Path joining as `os.path.join(a, b)` does it for two components. */
module Paths {

  /** `os.path.join(dir, name)`: an absolute `name` wins; otherwise one '/' separates the two. */
  function Join(dir: string, name: string): (p: string)
    ensures |name| > 0 && name[0] == '/' ==> p == name
  {
    if |name| > 0 && name[0] == '/' then name
    else if dir == [] || dir[|dir| - 1] == '/' then dir + name
    else dir + "/" + name
  }

  /** A relative name ends the joined path and sits under `dir`. */
  lemma JoinRelative(dir: string, name: string)
    requires |name| > 0 && name[0] != '/'
    ensures var p := Join(dir, name);
            |p| >= |dir| + |name| && p[..|dir|] == dir && p[|p| - |name|..] == name
  {
  }

  /** Different relative names in one directory give different paths. */
  lemma JoinInjective(dir: string, a: string, b: string)
    requires |a| > 0 && a[0] != '/' && |b| > 0 && b[0] != '/'
    requires Join(dir, a) == Join(dir, b)
    ensures a == b
  {
    var sep := if dir == [] || dir[|dir| - 1] == '/' then dir else dir + "/";
    assert Join(dir, a) == sep + a && Join(dir, b) == sep + b;
    assert a == (sep + a)[|sep|..];
    assert b == (sep + b)[|sep|..];
  }
}
