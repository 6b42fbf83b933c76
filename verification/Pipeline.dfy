/**
 * What an agent's tool loop does with the blocks it has collected: drops the
 * repetitions from the final response, puts the missing blocks in front of it,
 * or writes a final response from the blocks alone.
 */
module Pipeline {
  import opened Wrappers
  import opened Text
  import opened FileBlocks
  import opened RoundTrip

  /* Lists of blocks read as maps. */

  function PathsOf(bs: seq<Block>): set<string> {
    set b | b in bs :: b.path
  }

  predicate NoRepeats(bs: seq<Block>) {
    forall i, j :: 0 <= i < j < |bs| ==> bs[i].path != bs[j].path
  }

  /** All blocks of one path have one content. */
  predicate Agree(bs: seq<Block>) {
    forall b, c :: b in bs && c in bs && b.path == c.path ==> b.content == c.content
  }

  /** Content last written under a path. */
  function LatestContent(bs: seq<Block>, path: string): string {
    if bs == [] then ""
    else if bs[|bs| - 1].path == path then bs[|bs| - 1].content
    else LatestContent(bs[..|bs| - 1], path)
  }

  method LatestBlockContent(blocks: seq<Block>, path: string) returns (content: string)
    ensures content == LatestContent(blocks, path)
  {
    var i := |blocks|;
    assert blocks[..i] == blocks;
    while i > 0
      invariant 0 <= i <= |blocks| && LatestContent(blocks, path) == LatestContent(blocks[..i], path)
    {
      i := i - 1;
      assert blocks[..i + 1][..i] == blocks[..i];
      if blocks[i].path == path { return blocks[i].content; }
    }
    assert blocks[..0] == [];
    return "";
  }

  lemma {:induction false} LatestIsThere(bs: seq<Block>, path: string)
    requires path in PathsOf(bs)
    ensures Block(path, LatestContent(bs, path)) in bs
  {
    var last := bs[|bs| - 1];
    if last.path != path {
      var b :| b in bs && b.path == path;
      assert bs == bs[..|bs| - 1] + [last];
      assert b in bs[..|bs| - 1];
      LatestIsThere(bs[..|bs| - 1], path);
    }
  }

  /** It is the content of the last block of that path. */
  lemma {:induction false} LatestIsLast(bs: seq<Block>, path: string) returns (i: nat)
    requires path in PathsOf(bs)
    ensures i < |bs| && bs[i] == Block(path, LatestContent(bs, path)) && path !in PathsOf(bs[i + 1..])
  {
    i := |bs| - 1;
    if bs[i].path == path {
      assert bs[i + 1..] == [];
    } else {
      LatestIsThere(bs, path);
      var last, before := bs[i], bs[..i];
      assert bs == before + [last];
      assert Block(path, LatestContent(bs, path)) in before;
      i := LatestIsLast(before, path);
      assert bs[i + 1..] == before[i + 1..] + [last];
    }
  }

  /** Paths in the order they are first seen, those in `seen` left out. */
  function UniquePaths(bs: seq<Block>, seen: set<string>): (paths: seq<string>)
    ensures forall p :: p in paths ==> p in PathsOf(bs) && p != "" && p !in seen
  {
    if bs == [] then []
    else if bs[0].path == "" || bs[0].path in seen then
      assert PathsOf(bs[1..]) <= PathsOf(bs);
      UniquePaths(bs[1..], seen)
    else
      assert PathsOf(bs[1..]) <= PathsOf(bs) && bs[0] in bs;
      [bs[0].path] + UniquePaths(bs[1..], seen + {bs[0].path})
  }

  method UniqueFilePaths(blocks: seq<Block>) returns (out: seq<string>)
    ensures out == UniquePaths(blocks, {})
  {
    var seen: set<string> := {};
    out := [];
    var i := 0;
    while i < |blocks|
      invariant 0 <= i <= |blocks|
      invariant UniquePaths(blocks, {}) == out + UniquePaths(blocks[i..], seen)
    {
      var b := blocks[i];
      assert blocks[i..][1..] == blocks[i + 1..];
      if b.path != "" && b.path !in seen {
        seen := seen + {b.path};
        out := out + [b.path];
      }
      i := i + 1;
    }
  }

  /** The position at which a path is first seen. */
  function FirstSeen(bs: seq<Block>, path: string): (i: nat)
    requires path in PathsOf(bs)
    ensures i < |bs| && bs[i].path == path && path !in PathsOf(bs[..i])
  {
    if bs[0].path == path then 0
    else
      assert bs == [bs[0]] + bs[1..];
      var i := FirstSeen(bs[1..], path);
      assert bs[..i + 1] == [bs[0]] + bs[1..][..i];
      i + 1
  }

  /** Each path once, and in the order of first sight. */
  lemma {:induction false} UniquePathsInOrder(bs: seq<Block>, seen: set<string>)
    ensures
      var u := UniquePaths(bs, seen);
      && (forall p :: p in PathsOf(bs) && p != "" && p !in seen ==> p in u)
      && (forall i, j :: 0 <= i < j < |u| ==> FirstSeen(bs, u[i]) < FirstSeen(bs, u[j]))
  {
    if bs == [] {
    } else {
      var path, rest := bs[0].path, bs[1..];
      if path == "" || path in seen {
        UniquePathsInOrder(rest, seen);
        ShiftAll(bs, UniquePaths(rest, seen));
      } else {
        UniquePathsInOrder(rest, seen + {path});
        ShiftAll(bs, UniquePaths(rest, seen + {path}));
        FirstIsFirst(bs);
        hide FirstSeen;
        assert UniquePaths(bs, seen) == [path] + UniquePaths(rest, seen + {path});
      }
    }
  }

  lemma FirstIsFirst(bs: seq<Block>)
    requires bs != []
    ensures bs[0].path in PathsOf(bs) && FirstSeen(bs, bs[0].path) == 0
  {
    assert bs[0] in bs;
  }

  /** All but the first block are seen one position later. */
  lemma ShiftAll(bs: seq<Block>, u: seq<string>)
    requires bs != [] && forall p :: p in u ==> p in PathsOf(bs[1..]) && p != bs[0].path
    ensures forall p :: p in u ==> p in PathsOf(bs) && FirstSeen(bs, p) == 1 + FirstSeen(bs[1..], p)
    ensures forall p :: p in PathsOf(bs) ==> p == bs[0].path || p in PathsOf(bs[1..])
  {
    assert bs == [bs[0]] + bs[1..];
  }

  /* Text in front of printed blocks, and the blank lines after them. */

  predicate AllPlain(text: string) {
    forall l :: l in Split(text, '\n') ==> Plain(l)
  }

  /** Text that opens no block adds no block. */
  lemma PlainPrefix(text: string, rest: string)
    requires AllPlain(text)
    ensures Blocks(text + ['\n'] + rest) == Blocks(rest)
    ensures Closed(text + ['\n'] + rest) == Closed(rest)
  {
    var lines, after := Split(text, '\n'), Split(rest, '\n');
    SplitAppend(text, rest, '\n');
    FeedAppend(START, lines, after);
    FeedPlain(START, lines);
    FeedIgnoresPast([], lines, START, after);
    assert START.(summary := START.summary + lines) == START.(blocks := [] + START.blocks, summary := lines + START.summary);
  }

  lemma PlainHasNoBlocks(text: string)
    requires AllPlain(text)
    ensures Blocks(text) == [] && Closed(text)
  {
    FeedPlain(START, Split(text, '\n'));
  }

  /** Fences that open blocks have at least three backticks. */
  lemma {:induction false} FencesAreLong(r: Reader, lines: seq<string>)
    requires r.open.Some? ==> r.open.value.fence >= 3
    ensures FeedAll(r, lines).open.Some? ==> FeedAll(r, lines).open.value.fence >= 3
    decreases |lines|
  {
    if lines == [] {
    } else {
      FencesAreLong(Feed(r, lines[0]), lines[1..]);
    }
  }

  lemma BlankKeeps(r: Reader)
    requires r.open.Some? ==> r.open.value.fence >= 3
    ensures Feed(r, "").open.Some? == r.open.Some?
    ensures r.open.None? ==> Feed(r, "").blocks == r.blocks
    ensures r.open.Some? ==> Feed(r, "").open.value.fence >= 3
  {
    WordsArePlain("");
  }

  lemma LinesBeforeBlank(text: string)
    ensures Split(text + "\n\n", '\n') == Split(text, '\n') + ["", ""]
  {
    hide Split;
    assert text + "\n\n" == text + ['\n'] + ("" + ['\n'] + "");
    SplitAppend(text, "" + ['\n'] + "", '\n');
    SplitAppend("", "", '\n');
    SplitWhole("", '\n');
  }

  lemma FeedBlanks(r: Reader)
    ensures FeedAll(r, ["", ""]) == Feed(Feed(r, ""), "")
  {
    hide Feed;
    assert ["", ""][1..] == [""] && [""][1..] == [];
    assert FeedAll(Feed(r, ""), [""]) == FeedAll(Feed(Feed(r, ""), ""), []);
  }

  /** A closed text has the same blocks without the blank line at its end. */
  lemma BlankTail(text: string)
    requires Closed(text + "\n\n")
    ensures Closed(text) && Blocks(text) == Blocks(text + "\n\n")
  {
    hide Split, Feed, FeedAll;
    var r := Read(text);
    LinesBeforeBlank(text);
    FeedAppend(START, Split(text, '\n'), ["", ""]);
    FeedBlanks(r);
    FencesAreLong(START, Split(text, '\n'));
    BlankKeeps(r);
    BlankKeeps(Feed(r, ""));
  }

  /** The text up to the blank line that follows the last printed block. */
  lemma {:induction false} PrintAllEnds(bs: seq<Block>) returns (body: string)
    requires bs != []
    ensures PrintAll(bs) == body + "```" + "\n\n" && body != "" && body[0] == '`'
  {
    if |bs| == 1 {
      body := HEAD + bs[0].path + "\n" + bs[0].content + "\n";
      assert PrintAll(bs) == PrintBlock(bs[0]) + PrintAll([]);
      assert PrintBlock(bs[0]) == body + "```" + "\n\n";
    } else {
      var tail := PrintAllEnds(bs[1..]);
      body := PrintBlock(bs[0]) + tail;
      assert PrintAll(bs) == PrintBlock(bs[0]) + (tail + "```" + "\n\n");
    }
  }

  /**
   * Text that opens no block, a blank line, and printed blocks, all trimmed:
   * reading it gives the blocks.
   */
  lemma TrimmedTextAndBlocks(text: string, bs: seq<Block>)
    requires text != "" && Trimmed(text) && AllPlain(text) && Printable(bs)
    ensures Blocks(Trim(text + "\n\n" + PrintAll(bs))) == bs
  {
    hide Blocks, Closed, AllPlain, Balanced, GoodPath, PrintBlock, Plain;
    var whole := text + "\n\n" + PrintAll(bs);
    if bs == [] {
      assert whole == text + "\n\n";
      TrimTail(text, "\n\n");
      PlainHasNoBlocks(text);
    } else {
      var body := PrintAllEnds(bs);
      var kept := text + "\n\n" + body + "```";
      assert whole == kept + "\n\n";
      TrimTail(kept, "\n\n");
      BlankLineThenBlocks(text, bs);
      BlankTail(kept);
    }
  }

  lemma BlankLineThenBlocks(text: string, bs: seq<Block>)
    requires AllPlain(text) && Printable(bs)
    ensures Blocks(text + "\n\n" + PrintAll(bs)) == bs && Closed(text + "\n\n" + PrintAll(bs))
  {
    hide Blocks, Closed, AllPlain, Balanced, GoodPath, PrintBlock, Plain, PrintAll;
    assert text + "\n\n" + PrintAll(bs) == text + ['\n'] + ("" + ['\n'] + PrintAll(bs));
    PlainPrefix(text, "" + ['\n'] + PrintAll(bs));
    EmptyIsPlain();
    PlainPrefix("", PrintAll(bs));
    assert PrintAll(bs) + "" == PrintAll(bs) && bs + [] == bs;
    PrintedPrefix(bs, "");
    NothingToRead();
  }

  lemma EmptyIsPlain()
    ensures AllPlain("")
  {
    WordsArePlain("");
  }

  lemma TrimmedBlocks(bs: seq<Block>)
    requires Printable(bs)
    ensures Blocks(Trim(PrintAll(bs))) == bs
  {
    hide Blocks, Closed, Balanced, GoodPath, PrintBlock;
    assert PrintAll(bs) + "" == PrintAll(bs) && bs + [] == bs;
    PrintedPrefix(bs, "");
    NothingToRead();
    if bs != [] {
      var body := PrintAllEnds(bs);
      TrimTail(body + "```", "\n\n");
      BlankTail(body + "```");
    }
  }
}
