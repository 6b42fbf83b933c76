/** The directory that the artifacts of a task have in common. */
module DirPrefix {
  import Text

  predicate IsDir(d: string) {
    d != "" && d[|d| - 1] == '/'
  }

  /** A directory that all paths are under. */
  predicate CommonDir(paths: seq<string>, d: string) {
    IsDir(d) && forall p :: p in paths ==> d <= p
  }

  function TrimSlash(s: string): string {
    if IsDir(s) then s[..|s| - 1] else s
  }

  /** The directory above, "" if there is none. */
  function Parent(prefix: string): (r: string)
    ensures r == "" || IsDir(r)
    ensures r <= prefix && (prefix != "" ==> |r| < |prefix|)
    ensures forall d :: IsDir(d) && d <= prefix && d != prefix ==> d <= r
  {
    var i := Text.LastIndex(TrimSlash(prefix), '/');
    if i < 0 then "" else prefix[..i + 1]
  }

  method CommonDirPrefix(paths: seq<string>) returns (prefix: string)
    ensures paths == [] ==> prefix == ""
    ensures prefix == "" || CommonDir(paths, prefix)
    ensures paths != [] ==> forall d :: CommonDir(paths, d) ==> d <= prefix
  {
    if |paths| == 0 { return ""; }
    prefix := paths[0];
    assert paths[0] in paths;
    for k := 1 to |paths|
      invariant forall p :: p in paths[..k] ==> prefix <= p
      invariant forall d :: CommonDir(paths, d) ==> d <= prefix
    {
      ghost var before := prefix;
      while !(prefix <= paths[k])
        invariant prefix <= before
        invariant forall d :: CommonDir(paths, d) ==> d <= prefix
        decreases |prefix|
      {
        var i := Text.LastIndex(TrimSlash(prefix), '/');
        ghost var up := Parent(prefix);
        forall d | CommonDir(paths, d) ensures d <= up {
          assert paths[k] in paths;
        }
        if i < 0 { return ""; }
        prefix := prefix[..i + 1];
      }
      assert paths[..k + 1] == paths[..k] + [paths[k]];
    }
    assert paths[..|paths|] == paths;
    if !IsDir(prefix) {
      var i := Text.LastIndex(prefix, '/');
      ghost var up := Parent(prefix);
      if i < 0 { return ""; }
      prefix := prefix[..i + 1];
    }
  }

  /** There is at most one such answer, so the order of the paths does not matter. */
  lemma LongestIsUnique(paths: seq<string>, others: seq<string>, d: string, e: string)
    requires forall p :: p in paths <==> p in others
    requires d == "" || CommonDir(paths, d)
    requires e == "" || CommonDir(others, e)
    requires forall c :: CommonDir(paths, c) ==> c <= d
    requires forall c :: CommonDir(others, c) ==> c <= e
    ensures d == e
  {
    if d != "" { assert CommonDir(others, d); }
    if e != "" { assert CommonDir(paths, e); }
  }
}
