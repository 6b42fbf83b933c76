/**
 * Stripping a final response and then merging the collected blocks back: when the
 * last version of a file survives this, and when it does not.
 */
module StripMerge {
  import opened Wrappers
  import opened Text
  import opened FileBlocks
  import Paths
  import opened RoundTrip
  import opened Pipeline
  import opened FinalResponse

  /** The blocks that are left when both are done. */
  function Out(final: seq<Block>, acc: seq<Block>): seq<Block> {
    Missing(acc, PathsOf(Kept(final, acc))) + Kept(final, acc)
  }

  /** What was collected first under a path. */
  function FirstCollected(acc: seq<Block>, path: string): string
    requires path in PathsOf(acc)
  {
    acc[FirstSeen(acc, path)].content
  }

  /** The block repeats what was collected last, up to surrounding white space. */
  predicate Repeats(b: Block, acc: seq<Block>) {
    b.path in PathsOf(acc) && Trim(b.content) == Trim(LatestContent(acc, b.path))
  }

  /**
   * What can be checked before the call: a path was not collected, or its last
   * version differs from the last one collected, or all its versions repeat that
   * one and the first one collected does so, too.
   */
  predicate Survives(final: seq<Block>, acc: seq<Block>, path: string) {
    || path !in PathsOf(acc)
    || Trim(LatestContent(final, path)) != Trim(LatestContent(acc, path))
    || (&& (forall b :: b in final && b.path == path ==> Repeats(b, acc))
        && Trim(FirstCollected(acc, path)) == Trim(LatestContent(acc, path)))
  }

  /* What is kept of the final response. */

  lemma {:induction false} KeptMembers(final: seq<Block>, acc: seq<Block>)
    ensures forall b :: b in Kept(final, acc) <==> b in final && !Repeats(b, acc)
  {
    if final == [] {
    } else {
      assert final == [final[0]] + final[1..];
      KeptMembers(final[1..], acc);
    }
  }

  lemma {:induction false} KeptSnoc(final: seq<Block>, b: Block, acc: seq<Block>)
    ensures Kept(final + [b], acc) == Kept(final, acc) + if Repeats(b, acc) then [] else [b]
  {
    if final == [] {
      assert final + [b] == [b];
    } else {
      assert (final + [b])[1..] == final[1..] + [b];
      KeptSnoc(final[1..], b, acc);
    }
  }

  /** If the last version of a path is kept, it is the last one kept. */
  lemma {:induction false} LatestIsKept(final: seq<Block>, acc: seq<Block>, path: string)
    requires path in PathsOf(final) && !Repeats(Block(path, LatestContent(final, path)), acc)
    ensures path in PathsOf(Kept(final, acc))
    ensures LatestContent(Kept(final, acc), path) == LatestContent(final, path)
  {
    var before, last := final[..|final| - 1], final[|final| - 1];
    assert final == before + [last];
    KeptSnoc(before, last, acc);
    if last.path == path {
      assert last == Block(path, LatestContent(final, path));
      assert last in Kept(final, acc);
    } else {
      assert path in PathsOf(before);
      LatestIsKept(before, acc, path);
      PathsOfAppend(Kept(before, acc), if Repeats(last, acc) then [] else [last]);
      LatestAppend(Kept(before, acc), if Repeats(last, acc) then [] else [last], path);
    }
  }

  lemma PathsOfAppend(a: seq<Block>, b: seq<Block>)
    ensures PathsOf(a + b) == PathsOf(a) + PathsOf(b)
  {
    forall p ensures p in PathsOf(a + b) <==> p in PathsOf(a) + PathsOf(b) {
      if p in PathsOf(a) {
        var c :| c in a && c.path == p;
        assert c in a + b;
      }
      if p in PathsOf(b) {
        var c :| c in b && c.path == p;
        assert c in a + b;
      }
    }
  }

  lemma {:induction false} LatestAppend(a: seq<Block>, b: seq<Block>, path: string)
    ensures LatestContent(a + b, path) == if path in PathsOf(b) then LatestContent(b, path) else LatestContent(a, path)
  {
    if b == [] {
      assert a + b == a;
    } else {
      var before, last := b[..|b| - 1], b[|b| - 1];
      assert b == before + [last] && (a + b)[..|a + b| - 1] == a + before;
      PathsOfAppend(before, [last]);
      assert [last][0] in [last];
      LatestAppend(a, before, path);
    }
  }

  /** Merging puts back what was collected first. */
  lemma {:induction false} MissingHasFirst(acc: seq<Block>, seen: set<string>, path: string)
    requires path in PathsOf(acc) && path !in seen
    ensures path in PathsOf(Missing(acc, seen))
    ensures LatestContent(Missing(acc, seen), path) == FirstCollected(acc, path)
  {
    var rest := acc[1..];
    assert acc == [acc[0]] + rest;
    PathsOfCons(acc[0], rest);
    if acc[0].path == path {
      var more := Missing(rest, seen + {path});
      assert path !in PathsOf(more);
      assert Missing(acc, seen) == [acc[0]] + more;
      PathsOfCons(acc[0], more);
      LatestAppend([acc[0]], more, path);
      assert LatestContent([acc[0]], path) == acc[0].content;
    } else {
      ShiftAll(acc, [path]);
      if acc[0].path in seen {
        MissingHasFirst(rest, seen, path);
      } else {
        var more := Missing(rest, seen + {acc[0].path});
        MissingHasFirst(rest, seen + {acc[0].path}, path);
        PathsOfCons(acc[0], more);
        LatestAppend([acc[0]], more, path);
      }
    }
  }

  /* What survives. */

  /** No path is lost. */
  lemma OutPaths(final: seq<Block>, acc: seq<Block>)
    ensures PathsOf(Out(final, acc)) == PathsOf(final) + PathsOf(acc)
  {
    var kept := Kept(final, acc);
    KeptMembers(final, acc);
    MissingIsComplete(acc, PathsOf(kept));
    PathsOfAppend(Missing(acc, PathsOf(kept)), kept);
    forall p | p in PathsOf(final) + PathsOf(acc) ensures p in PathsOf(Out(final, acc)) {
      if p !in PathsOf(acc) {
        var b :| b in final && b.path == p;
        assert b in kept;
      }
    }
  }

  /** The last version of a path that the final response has is the last one read exactly if it survives. */
  lemma LatestSurvivesExactly(final: seq<Block>, acc: seq<Block>, path: string)
    requires path in PathsOf(final)
    ensures Trim(LatestContent(Out(final, acc), path)) == Trim(LatestContent(final, path)) <==>
      Survives(final, acc, path)
  {
    var kept := Kept(final, acc);
    LatestAppend(Missing(acc, PathsOf(kept)), kept, path);
    KeptMembers(final, acc);
    hide Kept, Missing, LatestContent, Trim, FirstCollected, Out;
    assert Out(final, acc) == Missing(acc, PathsOf(kept)) + kept by { OutIs(final, acc); }
    if !Repeats(Block(path, LatestContent(final, path)), acc) {
      LatestIsKept(final, acc, path);
    } else if path in PathsOf(kept) {
      LatestIsThere(kept, path);
    } else {
      MissingHasFirst(acc, PathsOf(kept), path);
      assert forall b :: b in final && b.path == path ==> b !in kept;
    }
  }

  lemma OutIs(final: seq<Block>, acc: seq<Block>)
    ensures Out(final, acc) == Missing(acc, PathsOf(Kept(final, acc))) + Kept(final, acc)
  {
  }

  /** A path the final response does not have is read as it was collected first. */
  lemma CollectedOnlyIsFirst(final: seq<Block>, acc: seq<Block>, path: string)
    requires path in PathsOf(acc) && path !in PathsOf(final)
    ensures LatestContent(Out(final, acc), path) == FirstCollected(acc, path)
  {
    var kept := Kept(final, acc);
    KeptMembers(final, acc);
    LatestAppend(Missing(acc, PathsOf(kept)), kept, path);
    MissingHasFirst(acc, PathsOf(kept), path);
  }

  /** The texts concerned can be printed and read back. */
  predicate Writable(content: string, acc: seq<Block>) {
    && Printable(acc)
    && (Kept(Blocks(content), acc) != Blocks(content) ==> Printable(Kept(Blocks(content), acc)))
  }

  lemma OutIsRead(content: string, acc: seq<Block>)
    requires Writable(content, acc)
    ensures Blocks(Merged(Stripped(content, acc), acc)) == Out(Blocks(content), acc)
  {
    hide Blocks, Stripped, Merged, Kept, Missing, Printable;
    StrippedBlocks(content, acc);
    MergedBlocks(Stripped(content, acc), acc);
  }

  /** What `out` has of `path`, next to what the final response and the collected blocks have of it. */
  predicate TakenOver(final: seq<Block>, acc: seq<Block>, out: seq<Block>, path: string) {
    && PathsOf(out) == PathsOf(final) + PathsOf(acc)
    && (path in PathsOf(final) ==>
          (Trim(LatestContent(out, path)) == Trim(LatestContent(final, path)) <==> Survives(final, acc, path)))
    && (path in PathsOf(acc) && path !in PathsOf(final) ==> LatestContent(out, path) == FirstCollected(acc, path))
  }

  lemma OutIsTakenOver(final: seq<Block>, acc: seq<Block>, path: string)
    ensures TakenOver(final, acc, Out(final, acc), path)
  {
    hide PathsOf, LatestContent, Trim, Survives, FirstCollected, Out;
    OutPaths(final, acc);
    if path in PathsOf(final) {
      LatestSurvivesExactly(final, acc, path);
    } else if path in PathsOf(acc) {
      CollectedOnlyIsFirst(final, acc, path);
    }
  }

  /**
   * After strip and merge no path is lost.  The last version of a path in the final
   * response survives, up to surrounding white space, exactly if `Survives` says so;
   * any other path is read as it was collected first.
   */
  lemma StripThenMerge(content: string, acc: seq<Block>, path: string)
    requires Writable(content, acc)
    ensures TakenOver(Blocks(content), acc, Blocks(Merged(Stripped(content, acc), acc)), path)
  {
    var final := Blocks(content);
    OutIsRead(content, acc);
    hide *;
    OutIsTakenOver(final, acc, path);
  }

  /* When everything survives. */

  lemma {:induction false} KeptIsComplete(final: seq<Block>, acc: seq<Block>)
    requires NoRepeats(final)
    ensures NoRepeats(Kept(final, acc))
    ensures forall b :: b in final && b !in Kept(final, acc) ==>
      b.path in PathsOf(acc) && Trim(b.content) == Trim(LatestContent(acc, b.path))
  {
    if final == [] {
    } else {
      assert final == [final[0]] + final[1..];
      KeptIsComplete(final[1..], acc);
      var rest := Kept(final[1..], acc);
      assert forall i :: 0 <= i < |rest| ==> rest[i] in final[1..];
      assert forall b :: b in final[1..] ==> b.path != final[0].path;
    }
  }

  /**
   * When the final response repeats no path and the collected blocks agree, the
   * final response overrides what was collected, and nothing is lost or repeated.
   */
  lemma OverridesWhenAgreed(content: string, acc: seq<Block>)
    requires Writable(content, acc) && NoRepeats(Blocks(content)) && Agree(acc)
    ensures
      var final, out := Blocks(content), Blocks(Merged(Stripped(content, acc), acc));
      && NoRepeats(out)
      && PathsOf(out) == PathsOf(final) + PathsOf(acc)
      && (forall b, c :: b in out && c in final && b.path == c.path ==> Trim(b.content) == Trim(c.content))
      && (forall b :: b in out && b.path !in PathsOf(final) ==> b in acc)
  {
    OutIsRead(content, acc);
    Overridden(Blocks(content), acc);
    hide *;
    OutIs(Blocks(content), acc);
  }

  /** The same, said of the lists of blocks. */
  lemma Overridden(final: seq<Block>, acc: seq<Block>)
    requires NoRepeats(final) && Agree(acc)
    ensures
      var out := Missing(acc, PathsOf(Kept(final, acc))) + Kept(final, acc);
      && NoRepeats(out)
      && PathsOf(out) == PathsOf(final) + PathsOf(acc)
      && (forall b, c :: b in out && c in final && b.path == c.path ==> Trim(b.content) == Trim(c.content))
      && (forall b :: b in out && b.path !in PathsOf(final) ==> b in acc)
  {
    hide Kept, Missing, LatestContent, Trim;
    var kept := Kept(final, acc);
    var missing := Missing(acc, PathsOf(kept));
    var out := missing + kept;
    KeptIsComplete(final, acc);
    MissingIsComplete(acc, PathsOf(kept));
    assert forall i :: 0 <= i < |kept| ==> kept[i] in kept;
    assert forall i :: 0 <= i < |missing| ==> missing[i] in missing;
    forall p | p in PathsOf(final) + PathsOf(acc) ensures p in PathsOf(out) {
      if p !in PathsOf(kept) {
        assert p in PathsOf(acc);
        var b :| b in missing && b.path == p;
        assert b in out;
      } else {
        var b :| b in kept && b.path == p;
        assert b in out;
      }
    }
    forall b, c | b in out && c in final && b.path == c.path ensures Trim(b.content) == Trim(c.content) {
      if b in kept {
        SamePathSameBlock(final, b, c);
      } else {
        assert b in acc && c !in kept;
        LatestIsThere(acc, c.path);
      }
    }
  }

  lemma SamePathSameBlock(bs: seq<Block>, b: Block, c: Block)
    requires NoRepeats(bs) && b in bs && c in bs && b.path == c.path
    ensures b == c
  {
    var i :| 0 <= i < |bs| && bs[i] == b;
    var j :| 0 <= j < |bs| && bs[j] == c;
  }

  /* When it does not: the two ways of losing the last version, as texts. */

  lemma ShortNameIsGood()
    ensures GoodPath("f")
  {
    SplitWhole("f", '/');
    assert Split("f", '/') == ["f"];
    Paths.PushAllKeeps([], ["f"], false);
    assert Paths.Elements("f") == ["f"];
    assert Paths.Clean("f") == "f";
  }

  lemma WordIsBalanced(word: string)
    requires '\n' !in word && (word == "" || (!IsSpace(word[0]) && word[0] != '`' && !IsSpace(word[|word| - 1])))
    ensures Balanced(word) && Trim(word) == word
  {
    SplitWhole(word, '\n');
    assert Trim(word) == word;
    assert Ticks(word) == 0;
    assert Scan([word][1..], 3, 0) == Some(0);
  }

  lemma TwoVersions()
    ensures
      var old_, new_ := Block("f", "old"), Block("f", "new");
      && Printable([old_, new_]) && Printable([new_]) && Printable([old_])
      && Trim("old") == "old" && Trim("new") == "new" && Trim("old") != Trim("new")
      && Blocks(PrintAll([old_, new_])) == [old_, new_] && Blocks(PrintAll([new_])) == [new_]
  {
    hide Blocks, PrintAll, Balanced, GoodPath;
    ShortNameIsGood();
    WordIsBalanced("old");
    WordIsBalanced("new");
    assert "old"[0] != "new"[0];
    RoundTrip.RoundTrip([Block("f", "old"), Block("f", "new")]);
    RoundTrip.RoundTrip([Block("f", "new")]);
  }

  /** A final response that writes a path twice, the second time as it was collected, loses the second. */
  lemma RepeatedPathLosesTheLatest()
    ensures
      var content, acc := PrintAll([Block("f", "old"), Block("f", "new")]), [Block("f", "new")];
      && LatestContent(Blocks(content), "f") == "new"
      && Blocks(Merged(Stripped(content, acc), acc)) == [Block("f", "old")]
  {
    var o, n := Block("f", "old"), Block("f", "new");
    TwoVersions();
    hide Blocks, PrintAll, Trim, Printable;
    assert [o, n][..1] == [o] && LatestContent([o, n], "f") == "new" && LatestContent([n], "f") == "new";
    assert n in [n];
    assert Kept([o, n], [n]) == [o] by {
      assert [o, n][1..] == [n] && [n][1..] == [];
    }
    assert o in [o];
    assert Missing([n], PathsOf([o])) == [];
    OutIsRead(PrintAll([o, n]), [n]);
  }

  /** A final response that repeats the last of two collected versions is read as the first. */
  lemma CollectedTwiceLosesTheLatest()
    ensures
      var content, acc := PrintAll([Block("f", "new")]), [Block("f", "old"), Block("f", "new")];
      && LatestContent(Blocks(content), "f") == "new"
      && Blocks(Merged(Stripped(content, acc), acc)) == [Block("f", "old")]
  {
    var o, n := Block("f", "old"), Block("f", "new");
    TwoVersions();
    hide Blocks, PrintAll, Trim, Printable;
    assert LatestContent([o, n], "f") == "new" && LatestContent([n], "f") == "new";
    assert o in [o, n];
    assert Kept([n], [o, n]) == [] by {
      assert [n][1..] == [];
    }
    assert Missing([o, n], {}) == [o] by {
      assert [o, n][1..] == [n] && [n][1..] == [];
      assert Missing([n], {} + {"f"}) == [] && Missing([o, n], {}) == [o] + Missing([n], {} + {"f"});
    }
    assert PathsOf([]) == {};
    assert Printable([]) by { EmptyIsPrintable(); }
    OutIsRead(PrintAll([n]), [o, n]);
  }

  lemma EmptyIsPrintable()
    ensures Printable([])
  {
  }
}
