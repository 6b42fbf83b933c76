/** What the text around the file blocks of a response becomes when it is stripped, merged or synthesised. */
module Prose {
  import opened Wrappers
  import opened Text
  import opened FileBlocks
  import opened RoundTrip
  import opened Pipeline
  import opened FinalResponse
  import opened StripMerge

  /** The lines of a text that belong to no block. */
  function Said(text: string): seq<string> {
    Read(text).summary
  }

  function Blanks(n: nat): seq<string> {
    if n == 0 then [] else [""] + Blanks(n - 1)
  }

  /* Blank lines around a text. */

  lemma {:induction false} JoinSnoc(lines: seq<string>, line: string)
    ensures Join(lines + [line], '\n') == if lines == [] then line else Join(lines, '\n') + ['\n'] + line
  {
    if lines == [] {
      assert lines + [line] == [line];
    } else {
      assert (lines + [line])[1..] == lines[1..] + [line];
      JoinSnoc(lines[1..], line);
    }
  }

  lemma {:induction false} BlanksAfter(lines: seq<string>, n: nat)
    ensures Trim(Join(lines + Blanks(n), '\n')) == Trim(Join(lines, '\n'))
    decreases n
  {
    hide Trim;
    if n == 0 {
      assert lines + Blanks(n) == lines;
    } else {
      assert lines + Blanks(n) == (lines + [""]) + Blanks(n - 1);
      BlanksAfter(lines + [""], n - 1);
      JoinSnoc(lines, "");
      if lines != [] {
        assert Join(lines, '\n') + ['\n'] + "" == Join(lines, '\n') + ['\n'];
        TrimIgnoresLast(Join(lines, '\n'), '\n');
      }
    }
  }

  lemma {:induction false} BlanksBefore(lines: seq<string>, n: nat)
    ensures Trim(Join(Blanks(n) + lines, '\n')) == Trim(Join(lines, '\n'))
  {
    hide Trim;
    if n == 0 {
      assert Blanks(n) + lines == lines;
    } else {
      var rest := Blanks(n - 1) + lines;
      assert Blanks(n) + lines == [""] + rest && ([""] + rest)[1..] == rest;
      BlanksBefore(lines, n - 1);
      if rest != [] {
        assert Join([""] + rest, '\n') == ['\n'] + Join(rest, '\n');
        TrimIgnoresFirst('\n', Join(rest, '\n'));
      }
    }
  }

  /* What is said around printed blocks. */

  lemma PrintedFirstSays(b: Block, tail: string)
    requires GoodPath(b.path) && Balanced(b.content)
    ensures Said(PrintBlock(b) + tail) == [""] + Said(tail)
  {
    hide Split, Feed, PrintBlock, Balanced;
    LinesOfPrinted(b, tail);
    var printed, lines := [HEAD + b.path] + Body(b), Split(tail, '\n');
    assert printed + lines == [HEAD + b.path] + (Body(b) + lines);
    FeedAppend(START, printed, lines);
    FeedPrinted(START, b);
    FeedIgnoresPast([b], [""], START, lines);
    assert Reader([] + [b], [] + [""], None) == START.(blocks := [b] + START.blocks, summary := [""] + START.summary);
  }

  /** Every printed block leaves one blank line. */
  lemma {:induction false} PrintedSays(bs: seq<Block>, rest: string)
    requires Printable(bs)
    ensures Said(PrintAll(bs) + rest) == Blanks(|bs|) + Said(rest)
  {
    hide Said, PrintBlock, GoodPath, Balanced;
    if bs == [] {
      assert PrintAll(bs) + rest == rest;
    } else {
      var b, tail := bs[0], PrintAll(bs[1..]) + rest;
      assert b in bs;
      assert PrintAll(bs) + rest == PrintBlock(b) + tail;
      PrintedFirstSays(b, tail);
      PrintedSays(bs[1..], rest);
    }
  }

  lemma PlainSays(text: string, rest: string)
    requires AllPlain(text)
    ensures Said(text + ['\n'] + rest) == Split(text, '\n') + Said(rest)
  {
    var lines, after := Split(text, '\n'), Split(rest, '\n');
    SplitAppend(text, rest, '\n');
    FeedAppend(START, lines, after);
    FeedPlain(START, lines);
    FeedIgnoresPast([], lines, START, after);
    assert START.(summary := START.summary + lines) == START.(blocks := [] + START.blocks, summary := lines + START.summary);
  }

  /** The blank lines that are trimmed off the end were all that was said there. */
  lemma BlankTailSays(text: string)
    requires Closed(text + "\n\n")
    ensures Said(text + "\n\n") == Said(text) + Blanks(2)
  {
    hide Split, Feed, FeedAll;
    var r := Read(text);
    LinesBeforeBlank(text);
    FeedAppend(START, Split(text, '\n'), ["", ""]);
    FeedBlanks(r);
    FencesAreLong(START, Split(text, '\n'));
    BlankKeeps(r);
    BlankKeeps(Feed(r, ""));
    WordsArePlain("");
    FeedPlainLine(r, "");
    FeedPlainLine(Feed(r, ""), "");
    assert Blanks(2) == [""] + Blanks(1) && Blanks(1) == [""] + Blanks(0);
  }

  lemma NothingSaid()
    ensures Said("") == [""]
  {
    WordsArePlain("");
    assert FeedAll(START, [""]) == FeedAll(Feed(START, ""), []);
  }

  lemma {:induction false} BlanksAdd(m: nat, n: nat)
    ensures Blanks(m) + Blanks(n) == Blanks(m + n)
  {
    if m > 0 { BlanksAdd(m - 1, n); }
  }

  /** The summary of a text in front of printed blocks is that text. */
  lemma TextAndBlocksSay(text: string, bs: seq<Block>)
    requires text != "" && Trimmed(text) && AllPlain(text) && Printable(bs)
    ensures Summary(Trim(text + "\n\n" + PrintAll(bs))) == text
  {
    hide Blocks, Closed, AllPlain, Balanced, GoodPath, PrintBlock, Plain, Said, Split;
    var whole := text + "\n\n" + PrintAll(bs);
    if bs == [] {
      assert whole == text + "\n\n";
      TrimTail(text, "\n\n");
      PlainHasNoBlocks(text);
    } else {
      var body := PrintAllEnds(bs);
      var kept := text + "\n\n" + body + "```";
      assert whole == kept + "\n\n";
      TrimTail(kept, "\n\n");
      BlankLineThenBlocks(text, bs);
      BlankTail(kept);
      TextAndBlocksSaid(text, bs, kept);
      SummaryIsSaid(kept);
      JoinSplit(text, '\n');
      TrimTrimmed(text);
    }
  }

  lemma SummaryIsSaid(content: string)
    requires Blocks(content) != []
    ensures Summary(content) == Trim(Join(Said(content), '\n'))
  {
  }

  lemma TextAndBlocksSaid(text: string, bs: seq<Block>, kept: string)
    requires AllPlain(text) && Printable(bs)
    requires text + "\n\n" + PrintAll(bs) == kept + "\n\n" && Closed(kept + "\n\n")
    ensures Trim(Join(Said(kept), '\n')) == Trim(Join(Split(text, '\n'), '\n'))
  {
    hide Said, AllPlain, Balanced, GoodPath, PrintBlock, PrintAll, Plain, Trim, Join, Split, Blanks;
    assert text + "\n\n" + PrintAll(bs) == text + ['\n'] + ("" + ['\n'] + (PrintAll(bs) + ""));
    PlainSays(text, "" + ['\n'] + (PrintAll(bs) + ""));
    EmptyIsPlain();
    PlainSays("", PrintAll(bs) + "");
    PrintedSays(bs, "");
    NothingSaid();
    SplitWhole("", '\n');
    OneBlank();
    BlanksAdd(1, |bs|);
    BlanksAdd(1 + |bs|, 1);
    var lines, n := Split(text, '\n'), 2 + |bs|;
    assert lines + ([""] + (Blanks(|bs|) + [""])) == lines + Blanks(n);
    BlankTailSays(kept);
    BlanksAfter(lines, n);
    BlanksAfter(Said(kept), 2);
  }

  lemma OneBlank()
    ensures Blanks(1) == [""]
  {
    assert Blanks(1) == [""] + Blanks(0);
  }

  /** Printed blocks alone have no summary. */
  lemma BlocksSayNothing(bs: seq<Block>)
    requires Printable(bs)
    ensures Summary(Trim(PrintAll(bs))) == ""
  {
    hide Blocks, Closed, Balanced, GoodPath, PrintBlock, Said;
    if bs == [] {
      assert Trim("") == "";
      NothingToRead();
    } else {
      assert PrintAll(bs) + "" == PrintAll(bs) && bs + [] == bs;
      PrintedPrefix(bs, "");
      NothingToRead();
      var body := PrintAllEnds(bs);
      var kept := body + "```";
      TrimTail(kept, "\n\n");
      BlankTail(kept);
      SummaryIsSaid(kept);
      PrintedSays(bs, "");
      NothingSaid();
      OneBlank();
      BlanksAdd(|bs|, 1);
      BlankTailSays(kept);
      BlanksAfter(Said(kept), 2);
      var none: seq<string> := [];
      BlanksAfter(none, |bs| + 1);
      assert none + Blanks(|bs| + 1) == Blanks(|bs| + 1);
      assert Trim("") == "";
    }
  }

  /* Stripping, merging, synthesising. */

  /** Stripping a response leaves what it says around its blocks. */
  lemma StrippingKeepsProse(content: string, acc: seq<Block>)
    requires Writable(content, acc)
    ensures Summary(Stripped(content, acc)) == Summary(content)
  {
    hide Blocks, PrintAll, AllPlain, Balanced, GoodPath, Summary, Trim, Trimmed;
    var final, kept := Blocks(content), Kept(Blocks(content), acc);
    if final != [] && |kept| != |final| {
      SummaryIsTrimmed(content);
      if Summary(content) != "" {
        SummaryIsAllPlain(content);
        TextAndBlocksSay(Summary(content), kept);
      } else {
        BlocksSayNothing(kept);
      }
    }
  }

  /** A text without blocks says all it has. */
  lemma NoBlocksSayAll(content: string)
    requires Blocks(content) == []
    ensures Said(content) == Split(content, '\n') && Summary(content) == content
  {
    hide Plain, Split, Feed;
    var lines := Split(content, '\n');
    if Opener(lines) < |lines| {
      var k := FirstRead(lines);
    } else {
      assert lines[..|lines|] == lines;
      FeedPlain(START, lines);
    }
  }

  /** Merging adds nothing but blank lines to what a response says. */
  lemma MergingKeepsProse(content: string, acc: seq<Block>)
    requires Printable(acc)
    ensures Trim(Summary(Merged(content, acc))) == Trim(Summary(content))
  {
    hide Blocks, PrintAll, Balanced, GoodPath, Said, Summary, Trim, Join;
    var bs := Missing(acc, PathsOf(Blocks(content)));
    if bs == [] {
      assert PrintAll([]) + content == content by { NothingPrinted(content); }
    } else {
      PrintedPrefix(bs, content);
      SummaryIsSaid(Merged(content, acc));
      PrintedSays(bs, content);
      BlanksBefore(Said(content), |bs|);
      TrimTwice(Join(Said(content), '\n'));
      if Blocks(content) == [] {
        NoBlocksSayAll(content);
        JoinSplit(content, '\n');
      } else {
        SummaryIsSaid(content);
      }
    }
  }

  lemma NothingPrinted(content: string)
    ensures PrintAll([]) + content == content
  {
    assert "" + content == content;
  }

  /** What the model says around its file blocks reaches the reader of the response unchanged. */
  lemma ProseSurvives(content: string, acc: seq<Block>)
    requires Writable(content, acc)
    ensures Trim(Summary(Merged(Stripped(content, acc), acc))) == Trim(Summary(content))
  {
    hide Blocks, Stripped, Merged, Kept, Missing, Printable, Summary, Trim;
    StrippingKeepsProse(content, acc);
    MergingKeepsProse(Stripped(content, acc), acc);
  }

  /** A synthesised response says that it is one, and names its files in the order of first sight. */
  lemma SynthesisSays(acc: seq<Block>)
    requires Printable(acc)
    ensures Summary(Synthesized(acc)) == SynthSummary(UniquePaths(acc, {}))
    ensures
      var lines := Split(Summary(Synthesized(acc)), '\n');
      |lines| == 4 && lines[1] == "Files: " + Listed(UniquePaths(acc, {}))
  {
    hide Blocks, PrintAll, Balanced, SynthSummary, LatestContent, UniquePaths, Trim, Trimmed, Summary;
    var files := UniquePaths(acc, {});
    SynthSummaryIsPlain(files);
    LatestArePrintable(acc, files);
    TextAndBlocksSay(SynthSummary(files), LatestBlocks(acc, files));
  }
}
