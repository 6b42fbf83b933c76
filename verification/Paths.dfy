/** Slash-separated paths and their lexical cleaning, as `filepath.Clean` defines it on Unix. */
module Paths {
  import opened Text

  /** One path element against the elements kept so far. */
  function Push(kept: seq<string>, part: string, rooted: bool): seq<string> {
    if part == "" || part == "." then kept
    else if part != ".." then kept + [part]
    else if |kept| > 0 && kept[|kept| - 1] != ".." then kept[..|kept| - 1]
    else if rooted then kept
    else kept + [part]
  }

  function PushAll(kept: seq<string>, parts: seq<string>, rooted: bool): seq<string>
    decreases |parts|
  {
    if parts == [] then kept else PushAll(Push(kept, parts[0], rooted), parts[1..], rooted)
  }

  predicate Absolute(path: string) {
    path != "" && path[0] == '/'
  }

  function Elements(path: string): seq<string> {
    PushAll([], Split(path, '/'), Absolute(path))
  }

  function Clean(path: string): string {
    if Absolute(path) then "/" + Join(Elements(path), '/')
    else if Elements(path) == [] then "."
    else Join(Elements(path), '/')
  }

  /** The paths a file block may have: relative, and not leaving their directory. */
  predicate Valid(path: string) {
    path != "" && !Absolute(Clean(path)) && ".." !in Split(Clean(path), '/')
  }

  predicate Proper(parts: seq<string>) {
    forall p :: p in parts ==> p != "" && p != "." && '/' !in p
  }

  lemma {:induction false} PushAllProper(kept: seq<string>, parts: seq<string>, rooted: bool)
    requires Proper(kept) && Free(parts, '/')
    ensures Proper(PushAll(kept, parts, rooted))
    decreases |parts|
  {
    if parts == [] {
    } else {
      assert parts[0] in parts;
      PushAllProper(Push(kept, parts[0], rooted), parts[1..], rooted);
    }
  }

  lemma {:induction false} PushAllKeeps(kept: seq<string>, parts: seq<string>, rooted: bool)
    requires Proper(parts) && ".." !in parts
    ensures PushAll(kept, parts, rooted) == kept + parts
    decreases |parts|
  {
    if parts == [] {
    } else {
      assert parts[0] in parts;
      assert forall p :: p in parts[1..] ==> p in parts;
      PushAllKeeps(kept + [parts[0]], parts[1..], rooted);
    }
  }

  lemma {:induction false} PushAllFree(kept: seq<string>, parts: seq<string>, rooted: bool, c: char)
    requires Free(kept, c) && Free(parts, c)
    ensures Free(PushAll(kept, parts, rooted), c)
    decreases |parts|
  {
    if parts == [] {
    } else {
      assert parts[0] in parts;
      PushAllFree(Push(kept, parts[0], rooted), parts[1..], rooted, c);
    }
  }

  lemma {:induction false} SplitKeepsFree(s: string, sep: char, c: char)
    requires c !in s
    ensures Free(Split(s, sep), c)
  {
    if s == "" {
    } else {
      assert s[0] in s;
      SplitKeepsFree(s[1..], sep, c);
    }
  }

  lemma {:induction false} JoinKeepsFree(parts: seq<string>, sep: char, c: char)
    requires Free(parts, c) && c != sep
    ensures c !in Join(parts, sep)
  {
    if |parts| > 0 {
      assert parts[0] in parts;
      JoinKeepsFree(parts[1..], sep, c);
    }
  }

  /** Cleaning never brings in a character of its own but '/' and '.'. */
  lemma CleanKeepsFree(path: string, c: char)
    requires c !in path && c != '/' && c != '.'
    ensures c !in Clean(path)
  {
    SplitKeepsFree(path, '/', c);
    PushAllFree([], Split(path, '/'), Absolute(path), c);
    JoinKeepsFree(Elements(path), '/', c);
  }

  /** A valid path, once clean, is a non-empty valid path that cleaning leaves alone. */
  lemma CleanIsStable(path: string)
    requires Valid(path)
    ensures Clean(path) != "" && Clean(Clean(path)) == Clean(path) && Valid(Clean(path))
  {
    var parts := Elements(path);
    SplitIsFree(path, '/');
    PushAllProper([], Split(path, '/'), Absolute(path));
    if parts == [] {
      SplitWhole(".", '/');
      assert Split(".", '/') == ["."];
      assert Push([], ".", false) == [];
      assert PushAll([], ["."], false) == [];
      assert Clean(".") == ".";
    } else {
      SplitJoin(parts, '/');
      assert parts[0] in parts && parts[0] != "";
      assert parts[0] <= Join(parts, '/');
      PushAllKeeps([], parts, false);
      assert Elements(Clean(path)) == parts;
    }
  }

  /** The characters of the parts, with a separator after each. */
  function Weight(parts: seq<string>): nat {
    if parts == [] then 0 else |parts[0]| + 1 + Weight(parts[1..])
  }

  lemma {:induction false} WeightAppend(a: seq<string>, b: seq<string>)
    ensures Weight(a + b) == Weight(a) + Weight(b)
  {
    if a == [] {
      assert a + b == b;
    } else {
      assert (a + b)[1..] == a[1..] + b;
      WeightAppend(a[1..], b);
    }
  }

  lemma {:induction false} WeightOfSplit(s: string, sep: char)
    ensures Weight(Split(s, sep)) == |s| + 1
  {
    if s == "" {
      assert Split(s, sep)[1..] == [];
    } else {
      WeightOfSplit(s[1..], sep);
      var rest := Split(s[1..], sep);
      assert ([""] + rest)[1..] == rest;
      assert ([[s[0]] + rest[0]] + rest[1..])[1..] == rest[1..];
    }
  }

  lemma {:induction false} WeightOfJoin(parts: seq<string>, sep: char)
    requires parts != []
    ensures |Join(parts, sep)| == Weight(parts) - 1
  {
    if |parts| > 1 { WeightOfJoin(parts[1..], sep); }
  }

  lemma {:induction false} PushAllWeight(kept: seq<string>, parts: seq<string>, rooted: bool)
    ensures Weight(PushAll(kept, parts, rooted)) <= Weight(kept) + Weight(parts)
    decreases |parts|
  {
    if parts == [] {
    } else {
      var next := Push(kept, parts[0], rooted);
      WeightAppend(kept, [parts[0]]);
      if |kept| > 0 {
        WeightAppend(kept[..|kept| - 1], kept[|kept| - 1..]);
        assert kept[..|kept| - 1] + kept[|kept| - 1..] == kept;
      }
      PushAllWeight(next, parts[1..], rooted);
    }
  }

  /** Cleaning makes nothing longer. */
  lemma CleanIsNoLonger(path: string)
    requires path != "" && !Absolute(path)
    ensures |Clean(path)| <= |path|
  {
    WeightOfSplit(path, '/');
    PushAllWeight([], Split(path, '/'), false);
    if Elements(path) != [] { WeightOfJoin(Elements(path), '/'); }
  }

  /** Cleaning a trimmed path can leave white space at its end. */
  lemma CleanCanUntrim()
    ensures Trimmed("a /.") && Valid("a /.") && !Trimmed(Clean("a /."))
  {
    assert "a /." == "a " + ['/'] + ".";
    SplitAppend("a ", ".", '/');
    SplitWhole("a ", '/');
    SplitWhole(".", '/');
    assert Split("a /.", '/') == ["a ", "."];
    assert PushAll([], ["a ", "."], false) == PushAll(["a "], ["."], false) == PushAll(["a "], [], false) == ["a "];
    assert Clean("a /.") == "a ";
  }

  /* What a path means. */

  /** Where one element of a path leads from a directory, given by the names from the root. */
  function Enter(dir: seq<string>, part: string): seq<string> {
    if part == "" || part == "." then dir
    else if part == ".." then if dir == [] then dir else dir[..|dir| - 1]
    else dir + [part]
  }

  function Walk(dir: seq<string>, parts: seq<string>): seq<string> {
    if parts == [] then dir else Enter(Walk(dir, parts[..|parts| - 1]), parts[|parts| - 1])
  }

  /** Names, after any number of steps up; under the root there are none. */
  predicate Lean(parts: seq<string>, rooted: bool) {
    && (forall p :: p in parts ==> p != "" && p != ".")
    && (forall i, j :: 0 <= i < j < |parts| && parts[j] == ".." ==> parts[i] == "..")
    && (rooted ==> ".." !in parts)
  }

  lemma WalkFurther(dir: seq<string>, parts: seq<string>, part: string)
    ensures Walk(dir, parts + [part]) == Enter(Walk(dir, parts), part)
  {
    assert (parts + [part])[..|parts|] == parts;
  }

  lemma PushIsLean(kept: seq<string>, part: string, rooted: bool)
    requires Lean(kept, rooted)
    ensures Lean(Push(kept, part, rooted), rooted)
  {
    if kept != [] {
      var shorter := kept[..|kept| - 1];
      assert kept == shorter + [kept[|kept| - 1]] && kept[|kept| - 1] in kept;
      assert forall p :: p in shorter ==> p in kept;
    }
  }

  lemma PushWalks(dir: seq<string>, kept: seq<string>, part: string, rooted: bool)
    requires Lean(kept, rooted) && (rooted ==> dir == [])
    ensures Walk(dir, Push(kept, part, rooted)) == Enter(Walk(dir, kept), part)
  {
    WalkFurther(dir, kept, part);
    if kept != [] { assert kept[|kept| - 1] in kept; }
  }

  lemma {:induction false} PushAllWalks(dir: seq<string>, kept: seq<string>, parts: seq<string>, rooted: bool)
    requires Lean(kept, rooted) && (rooted ==> dir == [])
    ensures Lean(PushAll(kept, parts, rooted), rooted)
    ensures Walk(dir, PushAll(kept, parts, rooted)) == Walk(Walk(dir, kept), parts)
    decreases |parts|
  {
    if parts != [] {
      hide Push, Lean, Enter;
      PushIsLean(kept, parts[0], rooted);
      PushWalks(dir, kept, parts[0], rooted);
      PushAllWalks(dir, Push(kept, parts[0], rooted), parts[1..], rooted);
      WalkFirst(Walk(dir, kept), parts);
    }
  }

  lemma {:induction false} WalkFirst(dir: seq<string>, parts: seq<string>)
    requires parts != []
    ensures Walk(dir, parts) == Walk(Enter(dir, parts[0]), parts[1..])
  {
    if |parts| == 1 {
      assert parts[..0] == [] && parts[1..] == [];
    } else {
      var before := parts[..|parts| - 1];
      WalkFirst(dir, before);
      assert before[1..] == parts[1..][..|parts| - 2];
    }
  }

  /**
   * Cleaning a path changes the way but not where it leads, from whatever directory; and of all
   * steps that lead nowhere or back again it leaves none.
   */
  lemma CleanLeadsToTheSamePlace(path: string, dir: seq<string>)
    requires Absolute(path) ==> dir == []
    ensures Walk(dir, Split(Clean(path), '/')) == Walk(dir, Split(path, '/'))
    ensures Lean(Elements(path), Absolute(path))
    ensures Absolute(Clean(path)) <==> Absolute(path)
  {
    SplitIsFree(path, '/');
    PushAllProper([], Split(path, '/'), Absolute(path));
    PushAllWalks(dir, [], Split(path, '/'), Absolute(path));
    CleanIsJoined(path);
    assert Walk(dir, []) == dir;
    hide Walk, PushAll, Lean, Clean, Split, Proper;
    NothingElse(dir, Elements(path));
  }

  /** What stands for the root and for the directory itself leads nowhere. */
  lemma NothingElse(dir: seq<string>, parts: seq<string>)
    ensures Walk(dir, [""] + parts) == Walk(dir, parts)
    ensures Walk(dir, ["", ""]) == Walk(dir, ["."]) == Walk(dir, []) == dir
  {
    WalkFirst(dir, [""] + parts);
    assert ([""] + parts)[1..] == parts;
    WalkFirst(dir, ["", ""]);
    WalkFirst(dir, [""]);
    WalkFirst(dir, ["."]);
    assert ["", ""][1..] == [""] && [""][1..] == [] && ["."][1..] == [];
  }

  /** The elements of a clean path, which says "." or "/" where there are none. */
  lemma CleanIsJoined(path: string)
    requires Proper(Elements(path))
    ensures
      var parts := Elements(path);
      Split(Clean(path), '/') ==
        if Absolute(path) then (if parts == [] then ["", ""] else [""] + parts)
        else if parts == [] then ["."] else parts
    ensures Absolute(Clean(path)) <==> Absolute(path)
  {
    hide Elements, Split, Join;
    var parts := Elements(path);
    if parts != [] { JoinedIsRelative(parts); }
    if Absolute(path) {
      RootedParts(Join(parts, '/'));
      if parts == [] { EmptyJoin(); }
    } else if parts == [] {
      SplitWhole(".", '/');
    }
  }

  lemma JoinedIsRelative(parts: seq<string>)
    requires Proper(parts) && parts != []
    ensures Split(Join(parts, '/'), '/') == parts && !Absolute(Join(parts, '/'))
  {
    SplitJoin(parts, '/');
    assert parts[0] in parts && parts[0] <= Join(parts, '/');
  }

  lemma RootedParts(rest: string)
    ensures Split("/" + rest, '/') == [""] + Split(rest, '/')
  {
    assert "/" + rest == "" + ['/'] + rest;
    SplitAppend("", rest, '/');
    SplitWhole("", '/');
  }

  lemma EmptyJoin()
    ensures Join([], '/') == "" && Split("", '/') == [""] && [""] + [""] == ["", ""]
  {
  }

  /** From a directory so far down, the path never goes above where it started. */
  predicate StaysInside(parts: seq<string>, depth: nat)
    decreases |parts|
  {
    if parts == [] then true
    else if parts[0] == "" || parts[0] == "." then StaysInside(parts[1..], depth)
    else if parts[0] == ".." then depth > 0 && StaysInside(parts[1..], depth - 1)
    else StaysInside(parts[1..], depth + 1)
  }

  lemma {:induction false} OnceOutsideStaysOutside(kept: seq<string>, parts: seq<string>)
    requires ".." in kept
    ensures ".." in PushAll(kept, parts, false)
    decreases |parts|
  {
    if parts != [] { OnceOutsideStaysOutside(Push(kept, parts[0], false), parts[1..]); }
  }

  lemma {:induction false} InsideExactly(kept: seq<string>, parts: seq<string>)
    requires ".." !in kept
    ensures ".." !in PushAll(kept, parts, false) <==> StaysInside(parts, |kept|)
    decreases |parts|
  {
    if parts != [] {
      var next := Push(kept, parts[0], false);
      if ".." in next {
        OnceOutsideStaysOutside(next, parts[1..]);
      } else {
        InsideExactly(next, parts[1..]);
      }
    }
  }

  /** The paths a file block may have are those that are relative and never leave the directory they start from. */
  lemma ValidExactly(path: string)
    ensures Valid(path) <==> path != "" && path[0] != '/' && StaysInside(Split(path, '/'), 0)
  {
    SplitIsFree(path, '/');
    PushAllProper([], Split(path, '/'), Absolute(path));
    CleanIsJoined(path);
    InsideExactly([], Split(path, '/'));
  }
}
