/**
 * File blocks in model output: a fence that names a file, the file's lines,
 * and a closing fence, with other fences nested inside.
 */
module FileBlocks {
  import opened Wrappers
  import opened Text
  import Paths

  datatype Block = Block(path: string, content: string)

  /** A block being read: its lines so far, its fence, and the fences open within it. */
  datatype Opened = Opened(path: string, lines: seq<string>, fence: nat, depth: nat)

  datatype Reader = Reader(blocks: seq<Block>, summary: seq<string>, open: Option<Opened>)

  const START := Reader([], [], None)

  /* Fences. */

  /** The backticks a line starts with. */
  function Ticks(line: string): (n: nat)
    ensures n <= |line|
  {
    if line != "" && line[0] == '`' then 1 + Ticks(line[1..]) else 0
  }

  predicate IsClosingFence(line: string, fence: nat) {
    Ticks(line) >= fence && Trim(line[Ticks(line)..]) == ""
  }

  predicate IsOpenFence(line: string, fence: nat) {
    Ticks(line) >= fence && Trim(line[Ticks(line)..]) != ""
  }

  const MARK := "file:"

  /** The fence and the path of a line that opens a file block. */
  function ParseFileFence(line: string): Option<(nat, string)> {
    var n := Ticks(line);
    if n < 3 || !(MARK <= line[n..]) then None
    else
      var path := Trim(line[n + |MARK|..]);
      if path == "" then None else Some((n, path))
  }

  /* Reading, line by line. */

  function Feed(r: Reader, line: string): Reader {
    var trimmed := Trim(line);
    match r.open
    case Some(o) =>
      if IsClosingFence(trimmed, o.fence) then
        if o.depth > 0 then r.(open := Some(o.(lines := o.lines + [line], depth := o.depth - 1)))
        else Reader(r.blocks + [Block(o.path, Join(o.lines, '\n'))], r.summary, None)
      else if IsOpenFence(trimmed, o.fence) then
        r.(open := Some(o.(lines := o.lines + [line], depth := o.depth + 1)))
      else r.(open := Some(o.(lines := o.lines + [line])))
    case None =>
      var f := ParseFileFence(trimmed);
      if f.Some? && Paths.Valid(f.value.1) then
        r.(open := Some(Opened(Paths.Clean(f.value.1), [], f.value.0, 0)))
      else r.(summary := r.summary + [line])
  }

  function FeedAll(r: Reader, lines: seq<string>): Reader
    decreases |lines|
  {
    if lines == [] then r else FeedAll(Feed(r, lines[0]), lines[1..])
  }

  /** A block that is never closed ends with the text. */
  function Finish(r: Reader): seq<Block> {
    match r.open
    case None => r.blocks
    case Some(o) => r.blocks + [Block(o.path, Join(o.lines, '\n'))]
  }

  function Read(content: string): Reader {
    FeedAll(START, Split(content, '\n'))
  }

  function Blocks(content: string): seq<Block> {
    Finish(Read(content))
  }

  function Summary(content: string): string {
    if Blocks(content) == [] then content else Trim(Join(Read(content).summary, '\n'))
  }

  /* The same, as the loops that compute it. */

  method CountTicks(line: string) returns (i: nat)
    ensures i == Ticks(line)
  {
    i := 0;
    while i < |line| && line[i] == '`'
      invariant i <= |line| && Ticks(line) == i + Ticks(line[i..])
    {
      i := i + 1;
    }
  }

  lemma FeedNext(r: Reader, lines: seq<string>, i: nat)
    requires i < |lines|
    ensures FeedAll(r, lines[i..]) == FeedAll(Feed(r, lines[i]), lines[i + 1..])
  {
    hide Feed;
    assert lines[i..][1..] == lines[i + 1..];
  }

  lemma FeedNothing(r: Reader)
    ensures FeedAll(r, []) == r
  {
  }

  method ParseFileBlocks(content: string) returns (blocks: seq<Block>, summary: string)
    ensures blocks == Blocks(content) && summary == Summary(content)
  {
    hide FeedAll, Split, Trim, Ticks, Join, Paths.Valid, Paths.Clean;
    var lines := Split(content, '\n');
    var summaryParts: seq<string> := [];
    var current: Option<string> := None;
    var blockContent: seq<string> := [];
    var fence, fenceDepth := 0, 0;
    blocks := [];
    assert lines[0..] == lines;
    var i := 0;
    while i < |lines|
      invariant 0 <= i <= |lines|
      invariant fenceDepth >= 0 && fence >= 0
      invariant
        var open := if current.Some? then Some(Opened(current.value, blockContent, fence, fenceDepth)) else None;
        FeedAll(Reader(blocks, summaryParts, open), lines[i..]) == Read(content)
    {
      var line := lines[i];
      FeedNext(
        Reader(blocks, summaryParts,
               if current.Some? then Some(Opened(current.value, blockContent, fence, fenceDepth)) else None),
        lines, i);
      var trimmed := Trim(line);
      var ticks := CountTicks(trimmed);
      if current.Some? {
        if ticks >= fence && Trim(trimmed[ticks..]) == "" {
          if fenceDepth > 0 {
            fenceDepth := fenceDepth - 1;
            blockContent := blockContent + [line];
          } else {
            blocks := blocks + [Block(current.value, Join(blockContent, '\n'))];
            current, blockContent, fence := None, [], 0;
          }
        } else {
          if ticks >= fence { fenceDepth := fenceDepth + 1; }
          blockContent := blockContent + [line];
        }
      } else {
        var path := "";
        if ticks >= 3 && MARK <= trimmed[ticks..] {
          path := Trim(trimmed[ticks + |MARK|..]);
        }
        if path != "" && Paths.Valid(path) {
          current, blockContent, fence, fenceDepth := Some(Paths.Clean(path)), [], ticks, 0;
        } else {
          summaryParts := summaryParts + [line];
        }
      }
      i := i + 1;
    }
    assert lines[i..] == [];
    FeedNothing(Reader(
      blocks, summaryParts,
      if current.Some? then Some(Opened(current.value, blockContent, fence, fenceDepth)) else None));
    if current.Some? {
      blocks := blocks + [Block(current.value, Join(blockContent, '\n'))];
    }
    summary := if blocks == [] then content else Trim(Join(summaryParts, '\n'));
  }

  /* Facts about reading. */

  lemma {:induction false} FeedAppend(r: Reader, a: seq<string>, b: seq<string>)
    ensures FeedAll(r, a + b) == FeedAll(FeedAll(r, a), b)
    decreases |a|
  {
    if a == [] {
      assert a + b == b;
    } else {
      assert (a + b)[1..] == a[1..] + b;
      FeedAppend(Feed(r, a[0]), a[1..], b);
    }
  }

  /** What has been read already does not influence what is read next. */
  lemma {:induction false} FeedIgnoresPast(before: seq<Block>, said: seq<string>, r: Reader, lines: seq<string>)
    ensures
      var past := r.(blocks := before + r.blocks, summary := said + r.summary);
      var s := FeedAll(r, lines);
      FeedAll(past, lines) == s.(blocks := before + s.blocks, summary := said + s.summary)
    decreases |lines|
  {
    if lines == [] {
    } else {
      var past := r.(blocks := before + r.blocks, summary := said + r.summary);
      var next := Feed(r, lines[0]);
      assert Feed(past, lines[0]) == next.(blocks := before + next.blocks, summary := said + next.summary) by {
        if r.open.Some? {
          var b := Block(r.open.value.path, Join(r.open.value.lines, '\n'));
          assert before + (r.blocks + [b]) == before + r.blocks + [b];
        } else {
          assert said + (r.summary + [lines[0]]) == said + r.summary + [lines[0]];
        }
      }
      FeedIgnoresPast(before, said, next, lines[1..]);
    }
  }

  /** A line that opens no file block. */
  predicate Plain(line: string) {
    var f := ParseFileFence(Trim(line));
    f.None? || !Paths.Valid(f.value.1)
  }

  lemma FeedPlainLine(r: Reader, line: string)
    requires r.open.None? && Plain(line)
    ensures Feed(r, line) == r.(summary := r.summary + [line])
  {
  }

  lemma {:induction false} FeedPlain(r: Reader, lines: seq<string>)
    requires r.open.None? && forall l :: l in lines ==> Plain(l)
    ensures FeedAll(r, lines) == r.(summary := r.summary + lines)
    decreases |lines|
  {
    hide Plain, Feed;
    if lines == [] {
      assert r.summary + lines == r.summary;
    } else {
      assert lines[0] in lines;
      FeedPlainLine(r, lines[0]);
      FeedPlain(Feed(r, lines[0]), lines[1..]);
      assert r.summary + [lines[0]] + lines[1..] == r.summary + lines;
    }
  }

  /** Every line kept for the summary is one that opens no block. */
  lemma {:induction false} SummaryIsPlain(r: Reader, lines: seq<string>)
    requires forall l :: l in r.summary ==> Plain(l)
    ensures forall l :: l in FeedAll(r, lines).summary ==> Plain(l)
    decreases |lines|
  {
    if lines == [] {
    } else {
      SummaryIsPlain(Feed(r, lines[0]), lines[1..]);
    }
  }

  /** A line that starts with neither white space nor a backtick opens nothing. */
  lemma WordsArePlain(line: string)
    requires line == "" || (!IsSpace(line[0]) && line[0] != '`')
    ensures Plain(line)
  {
    if line != "" {
      TrimRightFacts(line);
      assert TrimLeft(line) == line;
      assert Ticks(Trim(line)) == 0;
    }
  }

  /** How many fences are open after some lines of a block, unless one of them closes the block. */
  function Scan(lines: seq<string>, fence: nat, depth: nat): Option<nat>
    decreases |lines|
  {
    if lines == [] then Some(depth)
    else if IsClosingFence(Trim(lines[0]), fence) then
      if depth == 0 then None else Scan(lines[1..], fence, depth - 1)
    else Scan(lines[1..], fence, if IsOpenFence(Trim(lines[0]), fence) then depth + 1 else depth)
  }

  /** A content that a three-backtick fence can hold: every fence in it is closed in it. */
  predicate Balanced(content: string) {
    Scan(Split(content, '\n'), 3, 0) == Some(0)
  }

  lemma {:induction false} ScanAppend(a: seq<string>, b: seq<string>, fence: nat, depth: nat)
    ensures Scan(a + b, fence, depth) ==
      match Scan(a, fence, depth) case None => None case Some(d) => Scan(b, fence, d)
    decreases |a|
  {
    if a == [] {
      assert a + b == b;
    } else {
      assert (a + b)[1..] == a[1..] + b;
      if IsClosingFence(Trim(a[0]), fence) {
        if depth > 0 { ScanAppend(a[1..], b, fence, depth - 1); }
      } else {
        ScanAppend(a[1..], b, fence, if IsOpenFence(Trim(a[0]), fence) then depth + 1 else depth);
      }
    }
  }

  /** Starting further down ends as much further down. */
  lemma {:induction false} ScanDeeper(lines: seq<string>, fence: nat, depth: nat, more: nat)
    requires Scan(lines, fence, depth).Some?
    ensures Scan(lines, fence, depth + more) == Some(Scan(lines, fence, depth).value + more)
    decreases |lines|
  {
    if lines == [] {
    } else if IsClosingFence(Trim(lines[0]), fence) {
      ScanDeeper(lines[1..], fence, depth - 1, more);
    } else {
      ScanDeeper(lines[1..], fence, if IsOpenFence(Trim(lines[0]), fence) then depth + 1 else depth, more);
    }
  }

  /** Lines that do not close the block they are in are kept, and move its depth. */
  lemma {:induction false} FeedInside(r: Reader, lines: seq<string>)
    requires r.open.Some? && Scan(lines, r.open.value.fence, r.open.value.depth).Some?
    ensures
      var o := r.open.value;
      FeedAll(r, lines) ==
        r.(open := Some(o.(lines := o.lines + lines, depth := Scan(lines, o.fence, o.depth).value)))
    decreases |lines|
  {
    hide IsClosingFence, IsOpenFence, Trim, Join, ParseFileFence;
    var o := r.open.value;
    if lines == [] {
      assert o.lines + lines == o.lines;
    } else {
      FeedInside(Feed(r, lines[0]), lines[1..]);
      assert o.lines + [lines[0]] + lines[1..] == o.lines + lines;
    }
  }

  /* What fences look like. */

  function Backticks(n: nat): string {
    if n == 0 then "" else ['`'] + Backticks(n - 1)
  }

  /** White space, so many backticks and no more, and something after them. */
  predicate LooksLike(line: string, indent: string, n: nat, rest: string) {
    && line == indent + (Backticks(n) + rest)
    && (forall c :: c in indent ==> IsSpace(c))
    && (rest == "" || (rest[0] != '`' && (n == 0 ==> !IsSpace(rest[0]))))
  }

  lemma {:induction false} Indented(indent: string, rest: string)
    requires forall c :: c in indent ==> IsSpace(c)
    requires rest == "" || !IsSpace(rest[0])
    ensures TrimLeft(indent + rest) == rest
  {
    if indent == "" {
      assert indent + rest == rest;
    } else {
      assert (indent + rest)[1..] == indent[1..] + rest;
      Indented(indent[1..], rest);
    }
  }

  lemma {:induction false} TicksOf(n: nat, rest: string)
    requires rest == "" || rest[0] != '`'
    ensures Ticks(Backticks(n) + rest) == n == |Backticks(n)| && (Backticks(n) + rest)[n..] == rest
    ensures forall c :: c in Backticks(n) ==> c == '`'
  {
    if n == 0 {
      assert Backticks(n) + rest == rest;
    } else {
      assert (Backticks(n) + rest)[1..] == Backticks(n - 1) + rest;
      TicksOf(n - 1, rest);
    }
  }

  /** Every line looks like this, in one way. */
  lemma {:induction false} EveryLineLooks(line: string) returns (indent: string, n: nat, rest: string)
    ensures LooksLike(line, indent, n, rest)
  {
    if line != "" && IsSpace(line[0]) {
      indent, n, rest := EveryLineLooks(line[1..]);
      assert line == [line[0]] + (indent + (Backticks(n) + rest)) == ([line[0]] + indent) + (Backticks(n) + rest);
      indent := [line[0]] + indent;
    } else {
      indent := "";
      n, rest := TicksApart(line);
      assert line == "" + (Backticks(n) + rest);
      if n == 0 { assert Backticks(0) + rest == rest; }
    }
  }

  lemma {:induction false} TicksApart(s: string) returns (n: nat, rest: string)
    ensures s == Backticks(n) + rest && (rest == "" || rest[0] != '`')
  {
    if s != "" && s[0] == '`' {
      n, rest := TicksApart(s[1..]);
      assert s == ['`'] + (Backticks(n) + rest) == (['`'] + Backticks(n)) + rest;
      n := n + 1;
    } else {
      n, rest := 0, s;
      assert s == Backticks(0) + s;
    }
  }

  /** The same line trimmed. */
  lemma TrimmedLooks(line: string, indent: string, n: nat, rest: string)
    requires LooksLike(line, indent, n, rest)
    ensures Trim(line) == Backticks(n) + TrimRight(rest)
    ensures TrimRight(rest) == "" || TrimRight(rest)[0] != '`'
  {
    TicksOf(n, rest);
    TrimRightFacts(rest);
    assert n > 0 ==> (Backticks(n) + rest)[0] == Backticks(n)[0];
    assert n == 0 ==> Backticks(n) + rest == rest;
    Indented(indent, Backticks(n) + rest);
    if n > 0 {
      assert Backticks(n)[n - 1] in Backticks(n);
      TrimRightOf(Backticks(n), rest);
    } else {
      assert Backticks(n) + TrimRight(rest) == TrimRight(rest);
    }
  }

  /**
   * A line closes a fence if it has at least as many backticks and nothing else, and opens one
   * within it if something follows; it opens a file block if it has three or more, the mark and
   * a path that is not blank.
   */
  lemma FencesLookLikeThis(line: string, indent: string, n: nat, rest: string, fence: nat)
    requires LooksLike(line, indent, n, rest)
    ensures IsClosingFence(Trim(line), fence) <==> n >= fence && Trim(rest) == ""
    ensures IsOpenFence(Trim(line), fence) <==> n >= fence && Trim(rest) != ""
    ensures ParseFileFence(Trim(line)) ==
      if n >= 3 && "file:" <= rest && Trim(rest[5..]) != "" then Some((n, Trim(rest[5..]))) else None
  {
    hide Trim, Ticks;
    TrimmedLooks(line, indent, n, rest);
    TicksOf(n, TrimRight(rest));
    TrimAfterTrimRight(rest);
    MarkIsThere(rest);
  }

  lemma MarkIsThere(rest: string)
    ensures MARK <= rest <==> MARK <= TrimRight(rest)
    ensures MARK <= rest ==> Trim(TrimRight(rest)[5..]) == Trim(rest[5..])
  {
    TrimRightFacts(rest);
    if MARK <= rest {
      assert rest == MARK + rest[5..];
      TrimRightOf(MARK, rest[5..]);
      TrimAfterTrimRight(rest[5..]);
    }
  }

  /**
   * Whatever the number of its backticks, a header with an accepted path, lines in which every
   * fence of that length is closed, and a closing fence at least as long are read as one block;
   * without the closing fence, so they are at the end of the text.
   */
  lemma FencedBlockIsRead(
    r: Reader, header: string, indent: string, n: nat, path: string, lines: seq<string>, closing: string)
    requires r.open.None? && LooksLike(header, indent, n, "file:" + path) && n >= 3
    requires Trim(path) != "" && Paths.Valid(Trim(path))
    requires Scan(lines, n, 0).Some?
    ensures
      var b := Block(Paths.Clean(Trim(path)), Join(lines, '\n'));
      && Finish(FeedAll(r, [header] + lines)) == r.blocks + [b]
      && (Scan(lines, n, 0) == Some(0) && IsClosingFence(Trim(closing), n) ==>
            FeedAll(r, [header] + lines + [closing]) == Reader(r.blocks + [b], r.summary, None))
  {
    hide IsClosingFence, IsOpenFence, Trim, Join, Paths.Valid, Paths.Clean, Scan;
    FencesLookLikeThis(header, indent, n, "file:" + path, n);
    assert ("file:" + path)[5..] == path;
    var reading := r.(open := Some(Opened(Paths.Clean(Trim(path)), [], n, 0)));
    assert Feed(r, header) == reading;
    assert ([header] + lines)[1..] == lines && [] + lines == lines;
    FeedInside(reading, lines);
    if Scan(lines, n, 0) == Some(0) && IsClosingFence(Trim(closing), n) {
      FeedAppend(r, [header] + lines, [closing]);
      var full := FeedAll(r, [header] + lines);
      assert [closing][1..] == [];
      assert FeedAll(full, [closing]) == FeedAll(Feed(full, closing), []);
    }
  }
}
