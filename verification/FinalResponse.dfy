/** The three ways a tool loop puts a final response together, and what each is worth. */
module FinalResponse {
  import opened Wrappers
  import opened Text
  import opened FileBlocks
  import opened RoundTrip
  import opened Pipeline

  /* Synthesis: a response written from the collected blocks alone. */

  // In pieces that are short enough for the verifier to look at every character.
  const SUMMARY_LINE :=
    "Summary: Finalized from" + " materialized scratch" + " files after tool-loop" + " convergence."
  const VERIFY_LINE :=
    "Verify: Previously" + " executed in tool loop;" + " no additional" + " finalization commands" + " run."
  const COMMIT_LINE := "Commit: no-op"

  function SynthSummary(files: seq<string>): string {
    SUMMARY_LINE + "\n" + "Files: " + Listed(files) + "\n" + VERIFY_LINE + "\n" + COMMIT_LINE
  }

  /** The last-written content of each path. */
  function LatestBlocks(acc: seq<Block>, paths: seq<string>): (bs: seq<Block>)
    ensures |bs| == |paths|
    ensures forall i :: 0 <= i < |paths| ==> bs[i] == Block(paths[i], LatestContent(acc, paths[i]))
  {
    if paths == [] then []
    else [Block(paths[0], LatestContent(acc, paths[0]))] + LatestBlocks(acc, paths[1..])
  }

  function Synthesized(acc: seq<Block>): string {
    var files := UniquePaths(acc, {});
    Trim(SynthSummary(files) + "\n\n" + PrintAll(LatestBlocks(acc, files)))
  }

  method SynthesizeFinalFromAccumulated(accumulated: seq<Block>) returns (content: string)
    ensures content == Synthesized(accumulated)
  {
    var files := UniqueFilePaths(accumulated);
    var b := SynthSummary(files) + "\n\n";
    ghost var front := b;
    var i := 0;
    while i < |files|
      invariant 0 <= i <= |files|
      invariant front + PrintAll(LatestBlocks(accumulated, files)) ==
                b + PrintAll(LatestBlocks(accumulated, files[i..]))
    {
      assert files[i..][1..] == files[i + 1..];
      var latest := LatestBlockContent(accumulated, files[i]);
      ghost var rest := LatestBlocks(accumulated, files[i..]);
      assert rest == [rest[0]] + LatestBlocks(accumulated, files[i + 1..]);
      assert rest[1..] == LatestBlocks(accumulated, files[i + 1..]);
      b := b + PrintBlock(Block(files[i], latest));
      i := i + 1;
    }
    assert files[|files|..] == [] && b + "" == b;
    content := Trim(b);
  }

  lemma FourLines(a: string, b: string, c: string, d: string)
    requires '\n' !in a && '\n' !in b && '\n' !in c && '\n' !in d
    ensures Split(a + ['\n'] + (b + ['\n'] + (c + ['\n'] + d)), '\n') == [a, b, c, d]
  {
    hide Split;
    SplitAppend(a, b + ['\n'] + (c + ['\n'] + d), '\n');
    SplitAppend(b, c + ['\n'] + d, '\n');
    SplitAppend(c, d, '\n');
    SplitWhole(a, '\n');
    SplitWhole(b, '\n');
    SplitWhole(c, '\n');
    SplitWhole(d, '\n');
  }

  lemma SummaryLineIsPlain()
    ensures '\n' !in SUMMARY_LINE && Plain(SUMMARY_LINE)
  {
    hide Plain;
    WordsArePlain(SUMMARY_LINE);
  }

  lemma VerifyLineIsPlain()
    ensures '\n' !in VERIFY_LINE && Plain(VERIFY_LINE)
  {
    hide Plain;
    WordsArePlain(VERIFY_LINE);
  }

  lemma CommitLineIsPlain()
    ensures '\n' !in COMMIT_LINE && Plain(COMMIT_LINE)
  {
    hide Plain;
    WordsArePlain(COMMIT_LINE);
  }

  lemma SynthSummaryIsPlain(files: seq<string>)
    requires Free(files, '\n')
    ensures AllPlain(SynthSummary(files)) && Trimmed(SynthSummary(files)) && SynthSummary(files) != ""
    ensures Split(SynthSummary(files), '\n') == [SUMMARY_LINE, "Files: " + Listed(files), VERIFY_LINE, COMMIT_LINE]
  {
    hide Split, Plain;
    ListedIsFree(files, '\n');
    SummaryLineIsPlain();
    VerifyLineIsPlain();
    CommitLineIsPlain();
    var line := "Files: " + Listed(files);
    FourLines(SUMMARY_LINE, line, VERIFY_LINE, COMMIT_LINE);
    WordsArePlain(line);
    assert SynthSummary(files) == SUMMARY_LINE + ['\n'] + (line + ['\n'] + (VERIFY_LINE + ['\n'] + COMMIT_LINE));
  }

  lemma LatestArePrintable(acc: seq<Block>, paths: seq<string>)
    requires Printable(acc) && forall p :: p in paths ==> p in PathsOf(acc)
    ensures Printable(LatestBlocks(acc, paths))
  {
    forall b | b in LatestBlocks(acc, paths) ensures b in acc {
      var i :| 0 <= i < |paths| && b == Block(paths[i], LatestContent(acc, paths[i]));
      assert paths[i] in paths;
      LatestIsThere(acc, paths[i]);
    }
  }

  lemma SynthesizedReads(acc: seq<Block>)
    requires Printable(acc)
    ensures Blocks(Synthesized(acc)) == LatestBlocks(acc, UniquePaths(acc, {}))
  {
    hide Blocks, PrintAll, Balanced, SynthSummary, LatestContent, UniquePaths, Trim, Trimmed;
    var files := UniquePaths(acc, {});
    SynthSummaryIsPlain(files);
    LatestArePrintable(acc, files);
    TrimmedTextAndBlocks(SynthSummary(files), LatestBlocks(acc, files));
  }

  lemma LatestInOrder(acc: seq<Block>)
    requires forall b :: b in acc ==> b.path != ""
    ensures
      var bs := LatestBlocks(acc, UniquePaths(acc, {}));
      && PathsOf(bs) == PathsOf(acc)
      && (forall b :: b in bs ==> b.content == LatestContent(acc, b.path))
      && (forall i, j :: 0 <= i < j < |bs| ==>
            bs[j].path in PathsOf(acc) && FirstSeen(acc, bs[i].path) < FirstSeen(acc, bs[j].path))
  {
    assert "" !in PathsOf(acc);
    var files := UniquePaths(acc, {});
    UniquePathsInOrder(acc, {});
    LatestPaths(acc, files);
    hide LatestContent, FirstSeen, LatestBlocks, PathsOf, UniquePaths;
  }

  lemma LatestPaths(acc: seq<Block>, files: seq<string>)
    ensures forall p :: p in files <==> p in PathsOf(LatestBlocks(acc, files))
  {
    hide LatestContent;
    var bs := LatestBlocks(acc, files);
    forall p | p in files ensures p in PathsOf(bs) {
      var i :| 0 <= i < |files| && files[i] == p;
      assert bs[i] in bs;
    }
  }

  /**
   * Reading a synthesised response gives every path once, in the order of first
   * sight, with the content last written to it.
   */
  lemma SynthesisKeepsTheLatest(acc: seq<Block>)
    requires Printable(acc)
    ensures
      var bs := Blocks(Synthesized(acc));
      && PathsOf(bs) == PathsOf(acc)
      && (forall b :: b in bs ==> b.content == LatestContent(acc, b.path))
      && (forall i, j :: 0 <= i < j < |bs| ==>
            bs[j].path in PathsOf(acc) && FirstSeen(acc, bs[i].path) < FirstSeen(acc, bs[j].path))
  {
    assert forall b :: b in acc ==> b.path != "";
    hide *;
    SynthesizedReads(acc);
    LatestInOrder(acc);
  }

  /* Stripping: a final response without the blocks that only repeat. */

  /** Blocks that are new, or differ by more than surrounding white space from what was collected. */
  function Kept(final: seq<Block>, acc: seq<Block>): (kept: seq<Block>)
    ensures |kept| <= |final| && (|kept| == |final| ==> kept == final)
    ensures forall b :: b in kept ==> b in final
  {
    if final == [] then []
    else
      var b, rest := final[0], Kept(final[1..], acc);
      if b.path !in PathsOf(acc) || Trim(b.content) != Trim(LatestContent(acc, b.path)) then [b] + rest else rest
  }

  function Stripped(content: string, acc: seq<Block>): string {
    var final := Blocks(content);
    var kept, summary := Kept(final, acc), Summary(content);
    if final == [] || |kept| == |final| then content
    else if summary != "" then Trim(Trim(summary) + "\n\n" + PrintAll(kept))
    else Trim(PrintAll(kept))
  }

  method StripRedundantBlocks(content: string, accumulated: seq<Block>) returns (out: string)
    ensures out == Stripped(content, accumulated)
  {
    hide Blocks, Summary, Trim, PrintAll, Kept;
    var final, summary := ParseFileBlocks(content);
    if |final| == 0 { return content; }
    var accumContent := CollectContents(accumulated);
    var kept := KeepNew(final, accumContent, accumulated);
    if |final| - |kept| == 0 { return content; }
    var text := "";
    if summary != "" { text := Trim(summary) + "\n\n"; }
    var printed := PrintEach(kept);
    assert "" + printed == printed;
    out := Trim(text + printed);
  }

  method KeepNew(final: seq<Block>, accumContent: map<string, string>, ghost acc: seq<Block>) returns (kept: seq<Block>)
    requires accumContent.Keys == PathsOf(acc)
    requires forall p :: p in accumContent ==> accumContent[p] == LatestContent(acc, p)
    ensures kept == Kept(final, acc)
  {
    hide Trim, LatestContent, Kept;
    NothingToKeep(acc);
    kept := [];
    var i := 0;
    while i < |final|
      invariant 0 <= i <= |final|
      invariant Kept(final, acc) == kept + Kept(final[i..], acc)
    {
      KeptNext(final, i, acc);
      var b := final[i];
      if b.path !in accumContent || Trim(b.content) != Trim(accumContent[b.path]) {
        kept := kept + [b];
      }
      i := i + 1;
    }
    assert final[i..] == [];
  }

  lemma NothingToKeep(acc: seq<Block>)
    ensures Kept([], acc) == []
  {
  }

  lemma KeptNext(final: seq<Block>, i: nat, acc: seq<Block>)
    requires i < |final|
    ensures
      var b := final[i];
      Kept(final[i..], acc) ==
        (if b.path !in PathsOf(acc) || Trim(b.content) != Trim(LatestContent(acc, b.path)) then [b] else [])
        + Kept(final[i + 1..], acc)
  {
    hide Trim, LatestContent;
    assert final[i..][1..] == final[i + 1..];
  }

  method CollectContents(accumulated: seq<Block>) returns (m: map<string, string>)
    ensures m.Keys == PathsOf(accumulated)
    ensures forall p :: p in m ==> m[p] == LatestContent(accumulated, p)
  {
    m := map[];
    var i := 0;
    while i < |accumulated|
      invariant 0 <= i <= |accumulated|
      invariant m.Keys == PathsOf(accumulated[..i])
      invariant forall p :: p in m ==> m[p] == LatestContent(accumulated[..i], p)
    {
      assert accumulated[..i + 1] == accumulated[..i] + [accumulated[i]];
      m := m[accumulated[i].path := accumulated[i].content];
      i := i + 1;
    }
    assert accumulated[..i] == accumulated;
  }

  method PrintEach(blocks: seq<Block>) returns (text: string)
    ensures text == PrintAll(blocks)
  {
    text := "";
    var i := 0;
    while i < |blocks|
      invariant 0 <= i <= |blocks| && PrintAll(blocks) == text + PrintAll(blocks[i..])
    {
      assert blocks[i..][1..] == blocks[i + 1..];
      text := text + PrintBlock(blocks[i]);
      i := i + 1;
    }
    assert blocks[i..] == [];
  }

  /** The lines a summary is made of still open no block when they are read again. */
  lemma SummaryIsAllPlain(content: string)
    requires Blocks(content) != []
    ensures AllPlain(Trim(Summary(content)))
  {
    var said := Read(content).summary;
    SummaryIsPlain(START, Split(content, '\n'));
    SaidIsFree(START, Split(content, '\n'), content);
    var text := Join(said, '\n');
    TrimTwice(text);
    TrimParts(text, '\n');
    if said == [] {
      EmptyIsPlain();
    } else {
      SplitJoin(said, '\n');
      PlainTravels(Split(Trim(text), '\n'), said);
    }
  }

  lemma PlainTravels(lines: seq<string>, within: seq<string>)
    requires PartsWithin(lines, within) && forall l :: l in within ==> Plain(l)
    ensures forall l :: l in lines ==> Plain(l)
  {
  }

  lemma SaidIsFree(r: Reader, lines: seq<string>, content: string)
    requires r == START && lines == Split(content, '\n')
    ensures Free(FeedAll(r, lines).summary, '\n')
  {
    SplitIsFree(content, '\n');
    FeedKeepsFree(r, lines);
  }

  lemma {:induction false} FeedKeepsFree(r: Reader, lines: seq<string>)
    requires Free(r.summary, '\n') && Free(lines, '\n')
    ensures Free(FeedAll(r, lines).summary, '\n')
    decreases |lines|
  {
    if lines == [] {
    } else {
      assert lines[0] in lines;
      FeedKeepsFree(Feed(r, lines[0]), lines[1..]);
    }
  }

  /** A stripped response holds exactly the blocks that were worth keeping. */
  lemma StrippedBlocks(content: string, acc: seq<Block>)
    requires Kept(Blocks(content), acc) != Blocks(content) ==> Printable(Kept(Blocks(content), acc))
    ensures Blocks(Stripped(content, acc)) == Kept(Blocks(content), acc)
  {
    hide Blocks, PrintAll, AllPlain, Balanced, GoodPath;
    var final, kept, summary := Blocks(content), Kept(Blocks(content), acc), Summary(content);
    if final != [] && |kept| != |final| {
      if summary != "" {
        SummaryIsAllPlain(content);
        SummaryIsTrimmed(content);
        TrimmedTextAndBlocks(Trim(summary), kept);
      } else {
        TrimmedBlocks(kept);
      }
    }
  }

  lemma SummaryIsTrimmed(content: string)
    requires Blocks(content) != []
    ensures Trim(Summary(content)) == Summary(content) && Trimmed(Summary(content))
  {
    TrimTwice(Join(Read(content).summary, '\n'));
    TrimIsTrimmed(Join(Read(content).summary, '\n'));
  }

  /* Merging: the collected blocks that a response lacks, put in front of it. */

  /** First blocks of paths not in `seen`. */
  function Missing(acc: seq<Block>, seen: set<string>): (bs: seq<Block>)
    ensures forall b :: b in bs ==> b in acc && b.path !in seen
  {
    if acc == [] then []
    else if acc[0].path in seen then Missing(acc[1..], seen)
    else [acc[0]] + Missing(acc[1..], seen + {acc[0].path})
  }

  function Merged(content: string, acc: seq<Block>): string {
    PrintAll(Missing(acc, PathsOf(Blocks(content)))) + content
  }

  method MergeAccumulatedBlocks(content: string, accumulated: seq<Block>) returns (out: string)
    ensures out == Merged(content, accumulated)
  {
    hide Blocks, Summary, PrintBlock;
    assert "" + content == content;
    if |accumulated| == 0 { return content; }
    var final, _ := ParseFileBlocks(content);
    var finalPaths := set b | b in final :: b.path;
    ghost var missing := Missing(accumulated, PathsOf(final));
    var prefix := "";
    var merged, i := 0, 0;
    while i < |accumulated|
      invariant 0 <= i <= |accumulated|
      invariant PrintAll(missing) == prefix + PrintAll(Missing(accumulated[i..], finalPaths))
      invariant merged == 0 ==> prefix == ""
    {
      assert accumulated[i..][1..] == accumulated[i + 1..];
      var b := accumulated[i];
      if b.path !in finalPaths {
        ghost var rest := Missing(accumulated[i..], finalPaths);
        assert rest[1..] == Missing(accumulated[i + 1..], finalPaths + {b.path});
        finalPaths := finalPaths + {b.path};
        prefix := prefix + PrintBlock(b);
        merged := merged + 1;
      }
      i := i + 1;
    }
    assert accumulated[i..] == [];
    if merged == 0 { return content; }
    out := prefix + content;
  }

  lemma MergedBlocks(content: string, acc: seq<Block>)
    requires Printable(acc)
    ensures Blocks(Merged(content, acc)) == Missing(acc, PathsOf(Blocks(content))) + Blocks(content)
  {
    PrintedPrefix(Missing(acc, PathsOf(Blocks(content))), content);
  }

  /* Strip, then merge. */

  lemma PathsOfCons(b: Block, rest: seq<Block>)
    ensures PathsOf([b] + rest) == {b.path} + PathsOf(rest)
  {
    forall p ensures p in PathsOf([b] + rest) <==> p in {b.path} + PathsOf(rest) {
      if p in PathsOf(rest) {
        var c :| c in rest && c.path == p;
        assert c in [b] + rest;
      }
      assert b in [b] + rest;
    }
  }

  lemma NoRepeatsCons(b: Block, rest: seq<Block>)
    requires NoRepeats(rest) && forall c :: c in rest ==> c.path != b.path
    ensures NoRepeats([b] + rest)
  {
    assert forall i :: 0 <= i < |rest| ==> rest[i] in rest;
  }

  lemma {:induction false} MissingIsComplete(acc: seq<Block>, seen: set<string>)
    ensures NoRepeats(Missing(acc, seen))
    ensures forall p :: p in PathsOf(acc) && p !in seen ==> p in PathsOf(Missing(acc, seen))
  {
    if acc == [] {
    } else {
      assert acc == [acc[0]] + acc[1..];
      PathsOfCons(acc[0], acc[1..]);
      if acc[0].path in seen {
        MissingIsComplete(acc[1..], seen);
      } else {
        var more := seen + {acc[0].path};
        MissingIsComplete(acc[1..], more);
        var rest := Missing(acc[1..], more);
        PathsOfCons(acc[0], rest);
        NoRepeatsCons(acc[0], rest);
        hide PathsOf, NoRepeats;
        assert Missing(acc, seen) == [acc[0]] + rest;
      }
    }
  }
}
