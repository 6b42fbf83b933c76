/** Printing file blocks and reading them back. */
module RoundTrip {
  import opened Wrappers
  import opened Text
  import opened FileBlocks
  import Paths

  const FENCE := "```"
  const HEAD := "```file:"

  function PrintBlock(b: Block): string {
    HEAD + b.path + "\n" + b.content + "\n```\n\n"
  }

  function PrintAll(bs: seq<Block>): string {
    if bs == [] then "" else PrintBlock(bs[0]) + PrintAll(bs[1..])
  }

  /** A path that survives being printed and read. */
  predicate GoodPath(p: string) {
    p != "" && Trimmed(p) && '\n' !in p && Paths.Valid(p) && Paths.Clean(p) == p
  }

  predicate Printable(bs: seq<Block>) {
    forall b :: b in bs ==> GoodPath(b.path) && Balanced(b.content)
  }

  /** The text ends outside any block. */
  predicate Closed(text: string) {
    Read(text).open.None?
  }

  /* One printed block. */

  /** The lines between the fence that opens a printed block and the text after it. */
  function Body(b: Block): seq<string> {
    Split(b.content, '\n') + [FENCE, ""]
  }

  lemma LinesOfBody(b: Block, rest: string)
    ensures Split(b.content + ['\n'] + (FENCE + ['\n'] + ("" + ['\n'] + rest)), '\n') == Body(b) + Split(rest, '\n')
  {
    hide Split;
    SplitAppend(b.content, FENCE + ['\n'] + ("" + ['\n'] + rest), '\n');
    SplitAppend(FENCE, "" + ['\n'] + rest, '\n');
    SplitAppend("", rest, '\n');
    SplitWhole("", '\n');
    SplitWhole(FENCE, '\n');
  }

  lemma LinesOfPrinted(b: Block, rest: string)
    requires '\n' !in b.path
    ensures Split(PrintBlock(b) + rest, '\n') == [HEAD + b.path] + (Body(b) + Split(rest, '\n'))
  {
    hide Split;
    var tail := b.content + ['\n'] + (FENCE + ['\n'] + ("" + ['\n'] + rest));
    assert PrintBlock(b) + rest == (HEAD + b.path) + ['\n'] + tail;
    SplitAppend(HEAD + b.path, tail, '\n');
    SplitWhole(HEAD + b.path, '\n');
    LinesOfBody(b, rest);
  }

  lemma TrimTrimmed(s: string)
    requires Trimmed(s)
    ensures Trim(s) == s
  {
  }

  /** A printed path is read back trimmed. */
  lemma HeadOpens(p: string)
    ensures ParseFileFence(Trim(HEAD + p)) == if Trim(p) == "" then None else Some((3, Trim(p)))
  {
    var line := HEAD + TrimRight(p);
    TrimRightOf(HEAD, p);
    assert Trim(HEAD + p) == line;
    assert line[3..] == MARK + TrimRight(p);
    assert line[1..][1..][1..] == line[3..];
    assert Ticks(line[3..]) == 0;
    assert Ticks(line[1..][1..]) == 1;
    assert Ticks(line[1..]) == 2;
    assert Ticks(line) == 3;
    assert line[3 + |MARK|..] == TrimRight(p);
    TrimAfterTrimRight(p);
  }

  lemma FenceCloses()
    ensures Trim(FENCE) == FENCE && Ticks(FENCE) == 3 && IsClosingFence(Trim(FENCE), 3)
  {
    TrimTrimmed(FENCE);
    assert FENCE[1..][1..][1..] == "";
    assert Ticks(FENCE[1..]) == 2;
  }

  lemma FeedPrinted(r: Reader, b: Block)
    requires r.open.None? && GoodPath(b.path) && Balanced(b.content)
    ensures FeedAll(r, [HEAD + b.path] + Body(b)) == Reader(r.blocks + [b], r.summary + [""], None)
  {
    var lines := Split(b.content, '\n');
    TrimTrimmed(b.path);
    HeadOpens(b.path);
    var reading := r.(open := Some(Opened(b.path, [], 3, 0)));
    assert Feed(r, HEAD + b.path) == reading;
    assert ([HEAD + b.path] + Body(b))[1..] == Body(b);
    FeedInside(reading, lines);
    assert [] + lines == lines;
    FeedAppend(reading, lines, [FENCE, ""]);
    FenceCloses();
    JoinSplit(b.content, '\n');
    var full := r.(open := Some(Opened(b.path, lines, 3, 0)));
    var closed := Reader(r.blocks + [b], r.summary, None);
    assert FeedAll(full, [FENCE, ""]) == FeedAll(closed, [""]) by {
      assert [FENCE, ""][1..] == [""];
    }
    WordsArePlain("");
    assert FeedAll(closed, [""]) == FeedAll(Feed(closed, ""), []);
  }

  lemma PrintedFirst(b: Block, tail: string)
    requires GoodPath(b.path) && Balanced(b.content)
    ensures Blocks(PrintBlock(b) + tail) == [b] + Blocks(tail)
    ensures Closed(PrintBlock(b) + tail) == Closed(tail)
  {
    hide Split, Feed, PrintBlock, Balanced;
    LinesOfPrinted(b, tail);
    var printed, lines := [HEAD + b.path] + Body(b), Split(tail, '\n');
    assert printed + lines == [HEAD + b.path] + (Body(b) + lines);
    FeedAppend(START, printed, lines);
    FeedPrinted(START, b);
    FeedIgnoresPast([b], [""], START, lines);
    assert Reader([] + [b], [] + [""], None) == START.(blocks := [b] + START.blocks, summary := [""] + START.summary);
  }

  /**
   * Printed blocks in front of a text add themselves to the blocks of the text:
   * reading the whole is reading the parts.
   */
  lemma {:induction false} PrintedPrefix(bs: seq<Block>, rest: string)
    requires Printable(bs)
    ensures Blocks(PrintAll(bs) + rest) == bs + Blocks(rest)
    ensures Closed(PrintAll(bs) + rest) == Closed(rest)
  {
    hide Blocks, Closed, PrintBlock, GoodPath, Balanced;
    if bs == [] {
      assert PrintAll(bs) + rest == rest;
    } else {
      var b, tail := bs[0], PrintAll(bs[1..]) + rest;
      assert b in bs;
      assert PrintAll(bs) + rest == PrintBlock(b) + tail;
      PrintedFirst(b, tail);
      PrintedPrefix(bs[1..], rest);
      assert [b] + (bs[1..] + Blocks(rest)) == bs + Blocks(rest);
    }
  }

  /* A printed block whose content is not balanced. */

  /** The line that closes a block, or the number of lines if none does. */
  function CloseAt(lines: seq<string>, fence: nat, depth: nat): (k: nat)
    ensures k <= |lines|
    decreases |lines|
  {
    if lines == [] then 0
    else if IsClosingFence(Trim(lines[0]), fence) then
      if depth == 0 then 0 else 1 + CloseAt(lines[1..], fence, depth - 1)
    else 1 + CloseAt(lines[1..], fence, if IsOpenFence(Trim(lines[0]), fence) then depth + 1 else depth)
  }

  lemma {:induction false} CloseAtAppend(a: seq<string>, b: seq<string>, fence: nat, depth: nat)
    ensures
      var k := CloseAt(a + b, fence, depth);
      match Scan(a, fence, depth)
      case None => k < |a|
      case Some(d) => k == |a| + CloseAt(b, fence, d)
    decreases |a|
  {
    if a == [] {
      assert a + b == b;
    } else {
      assert (a + b)[1..] == a[1..] + b;
      if IsClosingFence(Trim(a[0]), fence) {
        if depth > 0 { CloseAtAppend(a[1..], b, fence, depth - 1); }
      } else {
        CloseAtAppend(a[1..], b, fence, if IsOpenFence(Trim(a[0]), fence) then depth + 1 else depth);
      }
    }
  }

  /** What is read after line `k` has closed a block. */
  function Remaining(lines: seq<string>, k: nat): seq<Block>
    requires k <= |lines|
  {
    if k < |lines| then Finish(FeedAll(START, lines[k + 1..])) else []
  }

  lemma AfterBlocks(r: Reader, lines: seq<string>)
    requires r.open.None?
    ensures Finish(FeedAll(r, lines)) == r.blocks + Finish(FeedAll(START, lines))
  {
    hide FeedAll;
    FeedIgnoresPast(r.blocks, r.summary, START, lines);
    assert r.blocks + START.blocks == r.blocks && r.summary + START.summary == r.summary;
  }

  /** What an open block that line `k` closes and the lines after that are read as. */
  function Taken(r: Reader, lines: seq<string>, k: nat): seq<Block>
    requires r.open.Some? && k <= |lines|
  {
    r.blocks + [Block(r.open.value.path, Join(r.open.value.lines + lines[..k], '\n'))] + Remaining(lines, k)
  }

  lemma TakenLater(r: Reader, next: Reader, lines: seq<string>, k: nat)
    requires r.open.Some? && next.open.Some? && 0 < k <= |lines|
    requires next.blocks == r.blocks && next.open.value.path == r.open.value.path
    requires next.open.value.lines == r.open.value.lines + [lines[0]]
    ensures Taken(next, lines[1..], k - 1) == Taken(r, lines, k)
  {
    assert next.open.value.lines + lines[1..][..k - 1] == r.open.value.lines + lines[..k];
    if k < |lines| { assert lines[1..][k..] == lines[k + 1..]; }
  }

  /** An open block takes exactly the lines up to the one that closes it; reading starts again after that. */
  lemma {:induction false} OpenBlockTakes(r: Reader, lines: seq<string>)
    requires r.open.Some?
    ensures Finish(FeedAll(r, lines)) == Taken(r, lines, CloseAt(lines, r.open.value.fence, r.open.value.depth))
    decreases |lines|
  {
    hide IsClosingFence, IsOpenFence, Trim, Join, ParseFileFence, Paths.Valid, Paths.Clean;
    var o, k := r.open.value, CloseAt(lines, r.open.value.fence, r.open.value.depth);
    if lines == [] {
      assert o.lines + lines[..k] == o.lines;
    } else if IsClosingFence(Trim(lines[0]), o.fence) && o.depth == 0 {
      assert o.lines + lines[..k] == o.lines;
      AfterBlocks(Feed(r, lines[0]), lines[1..]);
    } else {
      hide Taken;
      OpenBlockTakes(Feed(r, lines[0]), lines[1..]);
      TakenLater(r, Feed(r, lines[0]), lines, k);
    }
  }

  /** Whatever a printed block is read back as, its header names it and its lines are the next ones. */
  lemma PrintedTakes(b: Block, rest: string)
    requires '\n' !in b.path && Trim(b.path) != "" && Paths.Valid(Trim(b.path))
    ensures
      var tail, out := Body(b) + Split(rest, '\n'), Blocks(PrintBlock(b) + rest);
      |out| > 0 && out[0] == Block(Paths.Clean(Trim(b.path)), Join(tail[..CloseAt(tail, 3, 0)], '\n'))
  {
    hide Split, PrintBlock, Join, CloseAt;
    var tail := Body(b) + Split(rest, '\n');
    LinesOfPrinted(b, rest);
    HeadOpens(b.path);
    var reading := START.(open := Some(Opened(Paths.Clean(Trim(b.path)), [], 3, 0)));
    assert Feed(START, HEAD + b.path) == reading;
    assert ([HEAD + b.path] + tail)[1..] == tail;
    OpenBlockTakes(reading, tail);
    assert [] + tail[..CloseAt(tail, 3, 0)] == tail[..CloseAt(tail, 3, 0)];
  }

  /** An unbalanced content is read back with fewer lines, or with more. */
  lemma UnbalancedChanges(b: Block, rest: string)
    requires GoodPath(b.path) && !Balanced(b.content)
    ensures var out := Blocks(PrintBlock(b) + rest); |out| > 0 && out[0] != b
  {
    hide Blocks, PrintBlock, Join;
    var lines, after := Split(b.content, '\n'), Split(rest, '\n');
    var tail := Body(b) + after;
    TrimTrimmed(b.path);
    PrintedTakes(b, rest);
    var k := CloseAt(tail, 3, 0);
    assert tail == lines + ([FENCE, ""] + after);
    CloseAtAppend(lines, [FENCE, ""] + after, 3, 0);
    FenceCloses();
    assert k != |lines|;
    TakenDiffers(b.content, rest, k);
  }

  lemma EmptyIsBalanced()
    ensures Balanced("")
  {
    assert Split("", '\n') == [""];
    assert Scan([""], 3, 0) == Scan([], 3, 0);
  }

  lemma TakenDiffers(content: string, rest: string, k: nat)
    requires !Balanced(content)
    requires k <= |Split(content, '\n') + [FENCE, ""] + Split(rest, '\n')|
    requires k != |Split(content, '\n')|
    ensures Join((Split(content, '\n') + [FENCE, ""] + Split(rest, '\n'))[..k], '\n') != content
  {
    var lines := Split(content, '\n');
    var taken := (lines + [FENCE, ""] + Split(rest, '\n'))[..k];
    EmptyIsBalanced();
    if k > 0 {
      SplitIsFree(content, '\n');
      SplitIsFree(rest, '\n');
      SplitJoin(taken, '\n');
    }
  }

  /**
   * Exactly the lists of blocks with balanced contents survive being printed
   * and read back.
   */
  lemma {:induction false} RoundTrip(bs: seq<Block>)
    requires forall b :: b in bs ==> GoodPath(b.path)
    ensures Blocks(PrintAll(bs)) == bs <==> forall b :: b in bs ==> Balanced(b.content)
  {
    hide Blocks, GoodPath, Balanced, PrintBlock;
    var n := FirstUnbalanced(bs);
    var good, rest := bs[..n], PrintAll(bs[n..]);
    PrintAllAppend(good, bs[n..]);
    assert good + bs[n..] == bs;
    PrintedPrefix(good, rest);
    if n == |bs| {
      assert Blocks(rest) == [] by { NothingToRead(); }
      assert good + [] == bs;
    } else {
      UnbalancedChanges(bs[n], PrintAll(bs[n..][1..]));
      assert bs[n..][0] == bs[n];
      assert Blocks(PrintAll(bs))[n] == Blocks(rest)[0];
    }
  }

  lemma NothingToRead()
    ensures Blocks("") == [] && Closed("")
  {
    WordsArePlain("");
    assert FeedAll(START, [""]) == FeedAll(Feed(START, ""), []);
  }

  function FirstUnbalanced(bs: seq<Block>): (n: nat)
    ensures n <= |bs|
    ensures forall b :: b in bs[..n] ==> Balanced(b.content)
    ensures n < |bs| ==> !Balanced(bs[n].content)
  {
    if bs == [] || !Balanced(bs[0].content) then 0
    else
      var m := FirstUnbalanced(bs[1..]);
      assert bs[..m + 1] == [bs[0]] + bs[1..][..m];
      m + 1
  }

  lemma {:induction false} PrintAllAppend(a: seq<Block>, b: seq<Block>)
    ensures PrintAll(a + b) == PrintAll(a) + PrintAll(b)
  {
    if a == [] {
      assert a + b == b;
    } else {
      assert (a + b)[1..] == a[1..] + b;
      PrintAllAppend(a[1..], b);
    }
  }

  /* Blocks the reader itself produced. */

  /** The lines an open block has taken so far account for its depth. */
  predicate Accounted(r: Reader) {
    r.open.Some? ==> Scan(r.open.value.lines, r.open.value.fence, 0) == Some(r.open.value.depth)
  }

  lemma FeedAccounted(r: Reader, line: string)
    requires Accounted(r)
    ensures Accounted(Feed(r, line))
  {
    if r.open.Some? {
      ScanAppend(r.open.value.lines, [line], r.open.value.fence, 0);
      var d := r.open.value.depth;
      assert forall e :: Scan([line], r.open.value.fence, d) == Some(e) ==> Scan([line][1..], r.open.value.fence, e) == Some(e);
    }
  }

  /** What a reader holds was reading by lines without line breaks. */
  predicate FreeOpen(r: Reader) {
    r.open.Some? ==> Free(r.open.value.lines, '\n')
  }

  /** A block closed by its own fence, reading with three backticks, is balanced. */
  lemma ClosedIsBalanced(r: Reader, line: string)
    requires Accounted(r) && FreeOpen(r) && r.open.Some? && r.open.value.fence == 3
    requires Feed(r, line).open.None?
    ensures var out := Feed(r, line).blocks; out != [] && Balanced(out[|out| - 1].content)
  {
    var lines := r.open.value.lines;
    if lines == [] {
      assert Scan([""], 3, 0) == Scan([], 3, 0);
    } else {
      SplitJoin(lines, '\n');
    }
  }

  /** Only three-backtick fences open blocks, and every block is closed. */
  predicate Tidy(r: Reader, lines: seq<string>)
    decreases |lines|
  {
    && (r.open.Some? ==> r.open.value.fence == 3)
    && (if lines == [] then r.open.None? else Tidy(Feed(r, lines[0]), lines[1..]))
  }

  lemma {:induction false} TidyIsBalanced(r: Reader, lines: seq<string>)
    requires Tidy(r, lines) && Free(lines, '\n') && Accounted(r) && FreeOpen(r)
    requires forall b :: b in r.blocks ==> Balanced(b.content)
    ensures forall b :: b in Finish(FeedAll(r, lines)) ==> Balanced(b.content)
    decreases |lines|
  {
    if lines == [] {
    } else {
      assert lines[0] in lines;
      FeedAccounted(r, lines[0]);
      if r.open.Some? && Feed(r, lines[0]).open.None? { ClosedIsBalanced(r, lines[0]); }
      TidyIsBalanced(Feed(r, lines[0]), lines[1..]);
    }
  }

  /** Every path the reader produces is clean, valid and on one line; it need not be trimmed. */
  predicate AlmostGood(p: string) {
    p != "" && '\n' !in p && Paths.Valid(p) && Paths.Clean(p) == p
  }

  predicate PathsAlmostGood(r: Reader) {
    && (forall b :: b in r.blocks ==> AlmostGood(b.path))
    && (r.open.Some? ==> AlmostGood(r.open.value.path))
  }

  lemma OpenedPathIsAlmostGood(line: string)
    requires '\n' !in line && !Plain(line)
    ensures AlmostGood(Paths.Clean(ParseFileFence(Trim(line)).value.1))
  {
    var trimmed := Trim(line);
    TrimIsTrimmed(line);
    var path := ParseFileFence(trimmed).value.1;
    TrimIsTrimmed(trimmed[Ticks(trimmed) + |MARK|..]);
    Paths.CleanKeepsFree(path, '\n');
    Paths.CleanIsStable(path);
  }

  lemma {:induction false} ReadPathsAreAlmostGood(r: Reader, lines: seq<string>)
    requires PathsAlmostGood(r) && Free(lines, '\n')
    ensures PathsAlmostGood(FeedAll(r, lines))
    decreases |lines|
  {
    if lines == [] {
    } else {
      assert lines[0] in lines;
      if r.open.None? && !Plain(lines[0]) { OpenedPathIsAlmostGood(lines[0]); }
      ReadPathsAreAlmostGood(Feed(r, lines[0]), lines[1..]);
    }
  }

  function FirstUntrimmed(bs: seq<Block>): (n: nat)
    ensures n <= |bs|
    ensures forall b :: b in bs[..n] ==> Trimmed(b.path)
    ensures n < |bs| ==> !Trimmed(bs[n].path)
  {
    if bs == [] || !Trimmed(bs[0].path) then 0
    else
      var m := FirstUntrimmed(bs[1..]);
      assert bs[..m + 1] == [bs[0]] + bs[1..][..m];
      m + 1
  }

  lemma TidyBlocks(text: string)
    requires Tidy(START, Split(text, '\n'))
    ensures forall b :: b in Blocks(text) ==> Balanced(b.content) && AlmostGood(b.path)
  {
    SplitIsFree(text, '\n');
    TidyIsBalanced(START, Split(text, '\n'));
    ReadPathsAreAlmostGood(START, Split(text, '\n'));
  }

  /* A block whose header does not open it. */

  /** No balanced content starts with what it has after some lines and then has a fence. */
  lemma NoBorder(lines: seq<string>, p: nat)
    requires 0 < p <= |lines| && Scan(lines, 3, 0) == Some(0) && lines[..|lines| - p] == lines[p..]
    ensures lines[|lines| - p] != FENCE
  {
    hide Scan;
    var front, n := lines[p..], |lines| - p;
    assert lines[..p] + front == lines && lines[..n] + lines[n..] == lines;
    ScanAppend(lines[..p], front, 3, 0);
    ScanAppend(lines[..n], lines[n..], 3, 0);
    ScanDeeper(front, 3, 0, Scan(lines[..p], 3, 0).value);
    if lines[n] == FENCE { FenceEnds(lines[n..]); }
  }

  lemma FenceEnds(lines: seq<string>)
    requires lines != [] && lines[0] == FENCE
    ensures Scan(lines, 3, 0) == None
  {
    FenceCloses();
  }

  /** The first line that opens a block, or the number of lines. */
  function Opener(lines: seq<string>): (k: nat)
    ensures k <= |lines|
    ensures forall l :: l in lines[..k] ==> Plain(l)
    ensures k < |lines| ==> !Plain(lines[k])
  {
    if lines == [] || !Plain(lines[0]) then 0
    else
      var m := Opener(lines[1..]);
      assert lines[..m + 1] == [lines[0]] + lines[1..][..m];
      m + 1
  }

  /** The first block read has lines that follow the line that opens it. */
  lemma FirstRead(lines: seq<string>) returns (k: nat)
    requires Opener(lines) < |lines|
    ensures
      var tail, out := lines[Opener(lines) + 1..], Finish(FeedAll(START, lines));
      k <= |tail| && |out| > 0 && out[0].content == Join(tail[..k], '\n') && out[1..] == Remaining(tail, k)
  {
    hide Join, Plain, Remaining;
    var m := Opener(lines);
    var plain, tail := START.(summary := lines[..m]), lines[m + 1..];
    assert lines == lines[..m] + ([lines[m]] + tail);
    FeedAppend(START, lines[..m], [lines[m]] + tail);
    FeedPlain(START, lines[..m]);
    assert START.summary + lines[..m] == lines[..m];
    assert ([lines[m]] + tail)[1..] == tail;
    var reading := Feed(plain, lines[m]);
    NotPlainOpens(plain, lines[m]);
    OpenBlockTakes(reading, tail);
    k := CloseAt(tail, reading.open.value.fence, 0);
    assert [] + tail[..k] == tail[..k];
  }

  lemma NotPlainOpens(r: Reader, line: string)
    requires r.open.None? && !Plain(line)
    ensures
      var next := Feed(r, line);
      next.blocks == r.blocks && next.open.Some? && next.open.value.lines == [] && next.open.value.depth == 0
  {
  }

  lemma {:induction false} NothingOpens(lines: seq<string>)
    requires Opener(lines) == |lines|
    ensures Finish(FeedAll(START, lines)) == []
  {
    assert lines[..|lines|] == lines;
    FeedPlain(START, lines);
  }

  /** The lines after the header of the first printed block. */
  function After(bs: seq<Block>): seq<string>
    requires bs != []
  {
    Body(bs[0]) + Split(PrintAll(bs[1..]), '\n')
  }

  /** A block opened within the content of the first one cannot have that content. */
  lemma ContentIsElsewhere(bs: seq<Block>, a: nat, k: nat)
    requires bs != [] && Balanced(bs[0].content)
    requires a < |Split(bs[0].content, '\n')| && !Plain(After(bs)[a])
    requires k <= |After(bs)[a + 1..]|
    ensures Join(After(bs)[a + 1..][..k], '\n') != bs[0].content
  {
    hide Plain, Split, Scan, PrintAll, Join;
    var lines, taken := Split(bs[0].content, '\n'), After(bs)[a + 1..][..k];
    if Join(taken, '\n') == bs[0].content {
      if k == 0 {
        NoLinesArePlain(taken, bs[0].content);
        assert false;
      } else {
        SplitIsFree(bs[0].content, '\n');
        SplitIsFree(PrintAll(bs[1..]), '\n');
        SplitJoin(taken, '\n');
        assert lines == taken;
        assert lines[..|lines| - a - 1] == lines[a + 1..];
        assert lines[|lines| - a - 1] == After(bs)[|lines|] == FENCE;
        NoBorder(lines, a + 1);
      }
    }
  }

  lemma NoLinesArePlain(lines: seq<string>, content: string)
    requires lines == [] && Join(lines, '\n') == content
    ensures Split(content, '\n') == [""] && Plain("")
  {
    WordsArePlain("");
  }

  lemma FenceIsPlain()
    ensures Plain(FENCE)
  {
    FenceCloses();
  }

  /**
   * Reading that starts outside a block anywhere after the header of the first
   * printed block never finds the blocks that were printed.
   */
  lemma {:induction false} NeverFound(bs: seq<Block>, n: nat)
    requires bs != [] && n <= |After(bs)|
    requires forall b :: b in bs ==> '\n' !in b.path && Balanced(b.content)
    ensures Finish(FeedAll(START, After(bs)[n..])) != bs
    decreases |bs|
  {
    hide Plain, Balanced, Join, Split, FeedAll, Opener;
    var lines, c := After(bs)[n..], |Split(bs[0].content, '\n')|;
    var m := Opener(lines);
    var a := n + m;
    if m == |lines| {
      NothingOpens(lines);
    } else {
      var k := FirstRead(lines);
      var tail := lines[m + 1..];
      assert tail == After(bs)[a + 1..] && After(bs)[a] == lines[m];
      if a < c {
        ContentIsElsewhere(bs, a, k);
      } else {
        FenceIsPlain();
        WordsArePlain("");
        LaterIsLater(bs, a);
        if k < |tail| {
          assert tail[k + 1..] == After(bs)[a + k + 2..] == After(bs[1..])[a + k - c - 1..];
          NeverFound(bs[1..], a + k - c - 1);
        }
      }
    }
  }

  /** What opens a block after the content of the first one is at or after the header of the second. */
  lemma LaterIsLater(bs: seq<Block>, a: nat)
    requires bs != [] && |Split(bs[0].content, '\n')| <= a < |After(bs)| && !Plain(After(bs)[a])
    requires forall b :: b in bs ==> '\n' !in b.path
    ensures |bs| > 1 && a >= |Split(bs[0].content, '\n')| + 2
    ensures
      var c := |Split(bs[0].content, '\n')|;
      After(bs)[c + 3..] == After(bs[1..])
  {
    hide Plain, Split;
    FenceIsPlain();
    WordsArePlain("");
    var c := |Split(bs[0].content, '\n')|;
    assert After(bs)[c] == FENCE && After(bs)[c + 1] == "";
    if |bs| == 1 {
      SplitWhole("", '\n');
      assert false;
    } else {
      assert bs[1..][0] in bs && bs[1..][0] == bs[1];
      LinesOfPrinted(bs[1], PrintAll(bs[1..][1..]));
    }
  }

  /* Reading what has been read and printed. */

  lemma UntrimmedChanges(bs: seq<Block>, n: nat)
    requires n < |bs| && Printable(bs[..n]) && !Trimmed(bs[n].path)
    requires forall b :: b in bs ==> '\n' !in b.path && Balanced(b.content)
    ensures Blocks(PrintAll(bs)) != bs
  {
    hide Blocks, GoodPath, Balanced, PrintBlock, CloseAt, Join;
    PrintAllAppend(bs[..n], bs[n..]);
    assert bs[..n] + bs[n..] == bs && bs[n..][0] == bs[n];
    PrintedPrefix(bs[..n], PrintAll(bs[n..]));
    FirstUntrimmedChanges(bs[n..]);
  }

  /** A block with an untrimmed path gets a shorter one, or is not read as a block at all. */
  lemma FirstUntrimmedChanges(bs: seq<Block>)
    requires bs != [] && !Trimmed(bs[0].path)
    requires forall b :: b in bs ==> '\n' !in b.path && Balanced(b.content)
    ensures Blocks(PrintAll(bs)) != bs
  {
    var path := Trim(bs[0].path);
    if path != "" && Paths.Valid(path) {
      PrintedTakes(bs[0], PrintAll(bs[1..]));
      TrimIsShorter(bs[0].path);
      Paths.CleanIsNoLonger(path);
    } else {
      HeaderIsPlain(bs[0].path);
      HeaderIsSkipped(bs);
      NeverFound(bs, 0);
    }
  }

  lemma HeaderIsPlain(p: string)
    requires Trim(p) == "" || !Paths.Valid(Trim(p))
    ensures Plain(HEAD + p)
  {
    HeadOpens(p);
  }

  lemma HeaderIsSkipped(bs: seq<Block>)
    requires bs != [] && '\n' !in bs[0].path && Plain(HEAD + bs[0].path)
    ensures Blocks(PrintAll(bs)) == Finish(FeedAll(START, After(bs)[0..]))
  {
    hide Split, Feed, PrintBlock, Plain;
    LinesOfPrinted(bs[0], PrintAll(bs[1..]));
    var header := HEAD + bs[0].path;
    FeedPlainLine(START, header);
    assert ([header] + After(bs))[1..] == After(bs) == After(bs)[0..];
    FeedIgnoresPast([], [header], START, After(bs));
    assert START.summary + [header] == [header] + START.summary && [] + START.blocks == START.blocks;
  }

  /** Reading a tidy text, printing and reading again gives the same exactly if cleaning has left every path trimmed. */
  lemma ReadPrintRead(text: string)
    requires Tidy(START, Split(text, '\n'))
    ensures
      var bs := Blocks(text);
      Blocks(PrintAll(bs)) == bs <==> forall b :: b in bs ==> Trimmed(b.path)
  {
    hide Blocks, Balanced, Scan, Split, Trim, Tidy;
    var bs := Blocks(text);
    TidyBlocks(text);
    var n := FirstUntrimmed(bs);
    if n == |bs| {
      assert bs[..n] == bs;
      RoundTrip(bs);
    } else {
      assert forall b :: b in bs[..n] ==> b in bs;
      assert bs[n] in bs;
      UntrimmedChanges(bs, n);
    }
  }
}
