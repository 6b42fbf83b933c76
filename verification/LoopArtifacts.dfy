/**
 * What becomes of the file blocks a tool loop has collected: which paths its final
 * response has, and with what content.
 */
module LoopArtifacts {
  import opened Wrappers
  import opened Text
  import opened FileBlocks
  import opened RoundTrip
  import opened Pipeline
  import opened FinalResponse
  import opened StripMerge
  import opened ToolLoop
  import Prose

  lemma CapturedPaths(bs: seq<Block>, disk: map<string, string>)
    ensures PathsOf(Captured(bs, disk)) == PathsOf(bs)
  {
    var r := Captured(bs, disk);
    forall p ensures p in PathsOf(r) <==> p in PathsOf(bs) {
      if p in PathsOf(r) {
        var i :| 0 <= i < |r| && r[i].path == p;
        assert bs[i] in bs;
      }
      if p in PathsOf(bs) {
        var i :| 0 <= i < |bs| && bs[i].path == p;
        assert r[i] in r;
      }
    }
  }

  lemma AssembledIs(reply: Reply, captured: seq<Block>)
    ensures Assembled(reply, captured) == Merged(Stripped(reply.content, captured), captured)
  {
    if captured == [] { NothingStripped(reply.content); }
  }

  lemma NothingStripped(content: string)
    ensures Stripped(content, []) == content
  {
    hide Blocks, Summary;
    KeptAll(Blocks(content));
  }

  lemma {:induction false} KeptAll(final: seq<Block>)
    ensures Kept(final, []) == final
  {
    if final == [] {
    } else {
      KeptAll(final[1..]);
    }
  }

  lemma MergedHasAll(content: string, acc: seq<Block>)
    requires Printable(acc)
    ensures PathsOf(acc) <= PathsOf(Blocks(Merged(content, acc)))
  {
    var own := Blocks(content);
    hide Blocks, Merged, Printable;
    MergedBlocks(content, acc);
    MissingIsComplete(acc, PathsOf(own));
    PathsOfAppend(Missing(acc, PathsOf(own)), own);
  }

  /** A tag whose lines open no block does not change what is read after it. */
  lemma TagIsTransparent(tag: string, rest: string)
    requires tag == "" || (tag[|tag| - 1] == '\n' && AllPlain(tag[..|tag| - 1]))
    ensures Blocks(tag + rest) == Blocks(rest)
  {
    hide *;
    if tag == "" {
      assert tag + rest == rest;
    } else {
      assert tag + rest == tag[..|tag| - 1] + ['\n'] + rest;
      PlainPrefix(tag[..|tag| - 1], rest);
    }
  }

  lemma TagEndsItsLine(v: Verify, output: string)
    ensures var tag := FailureTag(v, output); tag != "" && tag[|tag| - 1] == '\n'
  {
  }

  /** What stands before the content of a forced response. */
  function Tag(cfg: Config, world: World, r: Result): string {
    if r.verifyFailed && cfg.verify.Some? then FailureTag(cfg.verify.value, world.output(r.failures)) else ""
  }

  /** No line of the tag opens a file block. */
  predicate PlainTag(cfg: Config, world: World, r: Result) {
    var tag := Tag(cfg, world, r);
    tag != "" ==> AllPlain(tag[..|tag| - 1])
  }

  lemma ForcedContent(cfg: Config, maxIter: int, world: World)
    requires ResultOf(cfg, maxIter, world).ending.Exhausted? && ResultOf(cfg, maxIter, world).accumulated != []
    ensures
      var r := ResultOf(cfg, maxIter, world);
      && r.content == Tag(cfg, world, r) + Synthesized(Captured(r.accumulated, world.disk))
      && r.questions == QuestionsIn(world, r.iterations) && r.toolCalls == Calls(r.trail)
  {
    hide LoopEnd, FateOf, Trail, Collected, Synthesized, Captured, Assembled, FailureTag,
      RedirectsIn, FailuresIn, Calls, QuestionsIn, AnswerIn;
  }

  /** The last forced question that was answered, if `q` were asked in all: the one after it had no answer. */
  function LastAnswered(world: World, q: nat): int {
    if q > 0 && world.answer(q - 1).Some? then q - 1 else q - 2
  }

  /**
   * A forced response to which no file block was collected is the model's own: what it
   * answered last to a question asked after all those of the loop.  Only in shell-only mode
   * can there be a second such question, after an answer that called tools.
   */
  lemma ForcedAnswer(cfg: Config, maxIter: int, world: World)
    requires ResultOf(cfg, maxIter, world).ending.Exhausted? && ResultOf(cfg, maxIter, world).accumulated == []
    ensures
      var r := ResultOf(cfg, maxIter, world);
      var q, k := QuestionsIn(world, r.iterations), LastAnswered(world, r.questions);
      && q <= k < r.questions && world.answer(k).Some? && world.answer(q).Some?
      && r.content == Tag(cfg, world, r) + world.answer(k).value.content
      && r.toolCalls == Calls(r.trail) + world.answer(q).value.calls
      && (if world.answer(q).value.calls == 0 then r.questions == q + 1 else cfg.shellOnly && r.questions == q + 2)
  {
    hide LoopEnd, FateOf, Trail, Collected, Synthesized, Captured, Assembled, FailureTag,
      RedirectsIn, FailuresIn, Calls, QuestionsIn, AnswerIn;
  }

  lemma ForcedHasLatest(cfg: Config, maxIter: int, world: World)
    requires ResultOf(cfg, maxIter, world).ending.Exhausted? && ResultOf(cfg, maxIter, world).accumulated != []
    requires PlainTag(cfg, world, ResultOf(cfg, maxIter, world))
    requires Printable(Captured(ResultOf(cfg, maxIter, world).accumulated, world.disk))
    ensures
      var r := ResultOf(cfg, maxIter, world);
      var captured, out := Captured(r.accumulated, world.disk), Blocks(r.content);
      && PathsOf(out) == PathsOf(captured)
      && (forall b :: b in out ==> b.content == LatestContent(captured, b.path))
  {
    hide ResultOf, Blocks, Synthesized, Printable, Captured, AllPlain, FailureTag, PathsOf, LatestContent;
    var r := ResultOf(cfg, maxIter, world);
    var captured := Captured(r.accumulated, world.disk);
    ForcedContent(cfg, maxIter, world);
    if Tag(cfg, world, r) != "" { TagEndsItsLine(cfg.verify.value, world.output(r.failures)); }
    TagIsTransparent(Tag(cfg, world, r), Synthesized(captured));
    SynthesisKeepsTheLatest(captured);
    assert Blocks(r.content) == Blocks(Synthesized(captured));
  }

  /** The blocks of all answers that called tools in the loop, as the world gave them. */
  function Produced(cfg: Config, maxIter: int, world: World): seq<Block> {
    Collected(cfg.shellOnly, CallingAmong(world, QuestionsIn(world, ResultOf(cfg, maxIter, world).iterations)))
  }

  lemma AccumulatedIsProduced(cfg: Config, maxIter: int, world: World)
    ensures ResultOf(cfg, maxIter, world).accumulated == Produced(cfg, maxIter, world)
  {
    hide ResultOf, Collected, CallingAmong, QuestionsIn;
    ResultTrail(cfg, maxIter, world);
  }

  /**
   * Every path the model wrote in any answer that called tools is in the final
   * response; a response that was forced has the last content of each.
   */
  lemma ArtifactsSurvive(cfg: Config, maxIter: int, world: World)
    requires !ResultOf(cfg, maxIter, world).ending.Aborted?
    requires PlainTag(cfg, world, ResultOf(cfg, maxIter, world))
    requires Printable(Captured(Produced(cfg, maxIter, world), world.disk))
    ensures
      var r := ResultOf(cfg, maxIter, world);
      var captured := Captured(Produced(cfg, maxIter, world), world.disk);
      && PathsOf(Produced(cfg, maxIter, world)) <= PathsOf(Blocks(r.content))
      && (r.ending.Exhausted? && captured != [] ==> forall b :: b in Blocks(r.content) ==>
            b.content == LatestContent(captured, b.path))
  {
    hide ResultOf, Blocks, Printable, LatestContent, Produced, PlainTag, Assembled, Collected, CallingAmong, QuestionsIn;
    var r := ResultOf(cfg, maxIter, world);
    AccumulatedIsProduced(cfg, maxIter, world);
    CapturedPaths(r.accumulated, world.disk);
    assert PathsOf([]) == {};
    hide PathsOf;
    if r.ending.Answered? {
      AnswerIsTheLastOne(cfg, maxIter, world);
      AssembledHasAll(world.answer(r.questions - 1).value, Captured(r.accumulated, world.disk));
    } else if r.accumulated != [] {
      ForcedHasLatest(cfg, maxIter, world);
    }
  }

  lemma AssembledHasAll(reply: Reply, captured: seq<Block>)
    requires Printable(captured)
    ensures PathsOf(captured) <= PathsOf(Blocks(Assembled(reply, captured)))
  {
    hide Assembled, Blocks, PathsOf, Printable;
    AssembledIs(reply, captured);
    MergedHasAll(Stripped(reply.content, captured), captured);
  }

  /** The model's last answer. */
  function LastAnswer(cfg: Config, maxIter: int, world: World): string {
    var q := ResultOf(cfg, maxIter, world).questions;
    if q > 0 && world.answer(q - 1).Some? then world.answer(q - 1).value.content else ""
  }

  /**
   * When the model's answer is returned: the last version of a path that the answer
   * has survives exactly if `Survives` says so; a path that only earlier answers have
   * is read with the content of the first block collected for it.
   */
  lemma AnsweredContentsExactly(cfg: Config, maxIter: int, world: World, path: string)
    requires ResultOf(cfg, maxIter, world).ending.Answered?
    requires Writable(LastAnswer(cfg, maxIter, world), Captured(Produced(cfg, maxIter, world), world.disk))
    ensures
      TakenOver(
        Blocks(LastAnswer(cfg, maxIter, world)), Captured(Produced(cfg, maxIter, world), world.disk),
        Blocks(ResultOf(cfg, maxIter, world).content), path)
  {
    hide ResultOf, Blocks, Produced, Assembled, Captured, Writable, TakenOver, Stripped, Merged;
    var r := ResultOf(cfg, maxIter, world);
    AccumulatedIsProduced(cfg, maxIter, world);
    AnswerIsTheLastOne(cfg, maxIter, world);
    AssembledIs(world.answer(r.questions - 1).value, Captured(r.accumulated, world.disk));
    StripThenMerge(LastAnswer(cfg, maxIter, world), Captured(r.accumulated, world.disk), path);
  }

  /** What the model says around its file blocks is what the response says around them. */
  lemma AnswerKeepsProse(cfg: Config, maxIter: int, world: World)
    requires ResultOf(cfg, maxIter, world).ending.Answered?
    requires Writable(LastAnswer(cfg, maxIter, world), Captured(Produced(cfg, maxIter, world), world.disk))
    ensures Trim(Summary(ResultOf(cfg, maxIter, world).content)) == Trim(Summary(LastAnswer(cfg, maxIter, world)))
  {
    hide ResultOf, Blocks, Produced, Assembled, Captured, Writable, Stripped, Merged, Summary, Trim;
    var r := ResultOf(cfg, maxIter, world);
    AccumulatedIsProduced(cfg, maxIter, world);
    AnswerIsTheLastOne(cfg, maxIter, world);
    AssembledIs(world.answer(r.questions - 1).value, Captured(r.accumulated, world.disk));
    Prose.ProseSurvives(LastAnswer(cfg, maxIter, world), Captured(r.accumulated, world.disk));
  }

  /** A file that can be read back from disk is collected with one content only. */
  lemma {:induction false} ReadBackAgrees(bs: seq<Block>, disk: map<string, string>, path: string)
    requires path in PathsOf(bs) && path in disk
    ensures path in PathsOf(Captured(bs, disk))
    ensures LatestContent(Captured(bs, disk), path) == FirstCollected(Captured(bs, disk), path) == disk[path]
  {
    var r := Captured(bs, disk);
    CapturedPaths(bs, disk);
    LatestIsThere(r, path);
    assert forall b :: b in r && b.path == path ==> b.content == disk[path];
  }

  /** So the answer's version survives if the answer writes the file once and the file is there in the end. */
  lemma PresentFilesSurvive(final: seq<Block>, bs: seq<Block>, disk: map<string, string>, path: string)
    requires NoRepeats(final) && path in PathsOf(final) && path in disk
    ensures Survives(final, Captured(bs, disk), path)
  {
    var acc := Captured(bs, disk);
    CapturedPaths(bs, disk);
    if path in PathsOf(bs) {
      ReadBackAgrees(bs, disk, path);
      LatestIsThere(final, path);
      var last := Block(path, LatestContent(final, path));
      hide LatestContent, Trim, FirstCollected, Captured;
      forall b | b in final && b.path == path && !(Trim(last.content) != Trim(LatestContent(acc, path)))
        ensures Repeats(b, acc)
      {
        SamePathSameBlock(final, b, last);
      }
    }
  }

  /* A run that loses the last version of a file. */

  /** The file is written twice, deleted by a tool call, and the answer sends its last version once more. */
  function Deleting(): World {
    World(
      i => true,
      q => if q == 0 then Some(Reply(PrintAll([Block("f", "old")]), 1, false))
           else if q == 1 then Some(Reply(PrintAll([Block("f", "new")]), 1, false))
           else Some(Reply(PrintAll([Block("f", "new")]), 0, false)),
      i => false, k => true, k => "", map[])
  }

  /** If nothing is asked twice, iteration `i` asks question `i`. */
  lemma {:induction false} OneQuestionEach(world: World, n: nat)
    requires forall i :: !world.shrinks(i)
    ensures QuestionsIn(world, n) == n
  {
    if n == 0 {
    } else {
      OneQuestionEach(world, n - 1);
    }
  }

  lemma DeletingAnswers(i: nat)
    ensures AnswerIn(Deleting(), i) == Deleting().answer(i)
    ensures Deleting().withinBudget(i) && Deleting().answer(i).Some? && !Deleting().answer(i).value.readOnly
    ensures Deleting().answer(i).value.calls == if i < 2 then 1 else 0
  {
    OneQuestionEach(Deleting(), i + 1);
  }

  lemma DeletingTrail()
    ensures Trail(Deleting(), 1) == [Deleting().answer(0).value]
    ensures Trail(Deleting(), 2) == [Deleting().answer(0).value, Deleting().answer(1).value]
    ensures Trail(Deleting(), 3) == Trail(Deleting(), 2)
  {
    hide AnswerIn, Deleting;
    DeletingAnswers(0);
    DeletingAnswers(1);
    DeletingAnswers(2);
    assert Trail(Deleting(), 0) == [];
  }

  lemma DeletingRuns(cfg: Config)
    requires cfg == Config(true, false, None)
    ensures LoopEnd(cfg, 7, Deleting()) == 2 && FateOf(cfg, 7, Deleting(), 2).Accepts?
  {
    var world := Deleting();
    hide AnswerIn, Deleting, Trail, Streak, Redirected, RedirectsIn, FailuresIn, LoopEnd, FateOf;
    forall i: nat | i <= 2
      ensures FateOf(cfg, 7, world, i) == if i < 2 then GoesOn else Accepts
      ensures LimitIn(cfg, 7, world, i) == 7
    {
      DeletingFates(cfg, i);
    }
    EndIs(cfg, 7, world, 2);
  }

  lemma {:induction false} DeletingFates(cfg: Config, i: nat)
    requires cfg == Config(true, false, None) && i <= 2
    ensures LimitIn(cfg, 7, Deleting(), i) == 7
    ensures FateOf(cfg, 7, Deleting(), i) == if i < 2 then GoesOn else Accepts
  {
    var world := Deleting();
    DeletingAnswers(i);
    hide AnswerIn, Deleting, Trail, Streak, FateOf;
    if i == 0 {
    } else {
      DeletingFates(cfg, i - 1);
      DeletingAnswers(i - 1);
    }
    FateIs(cfg, 7, world, i);
    if i < 2 { NeverStagnant(false, Trail(world, i + 1), world.answer(i).value, i); }
  }

  /** An answer that does not only look ends any streak. */
  lemma NeverStagnant(shellOnly: bool, trail: seq<Reply>, last: Reply, i: nat)
    requires i < 2 && trail == Trail(Deleting(), i + 1) && last == Deleting().answer(i).value
    ensures Streak(shellOnly, trail) == 0
  {
    hide Deleting, Collected;
    DeletingTrail();
    DeletingAnswers(i);
  }

  lemma DeletedFileComesBackOld()
    ensures
      var cfg := Config(true, false, None);
      && ResultOf(cfg, 7, Deleting()).ending.Answered?
      && LatestContent(Blocks(LastAnswer(cfg, 7, Deleting())), "f") == "new"
      && Blocks(ResultOf(cfg, 7, Deleting()).content) == [Block("f", "old")]
  {
    var cfg, world := Config(true, false, None), Deleting();
    var o, n := Block("f", "old"), Block("f", "new");
    DeletingRuns(cfg);
    DeletingTrail();
    DeletingAnswers(2);
    DeletingCollects();
    OneQuestionEach(world, 3);
    CollectedTwiceLosesTheLatest();
    hide Blocks, PrintAll, Assembled, Merged, Stripped, LoopEnd, FateOf, Collected, Captured, Trail, LatestContent,
      QuestionsIn, AnswerIn, FailuresIn, RedirectsIn, Calls;
    var r := ResultOf(cfg, 7, world);
    AssembledIs(world.answer(2).value, [o, n]);
    assert r.questions == 3;
  }

  lemma DeletingBlocks()
    ensures Blocks(Deleting().answer(0).value.content) == [Block("f", "old")]
    ensures Blocks(Deleting().answer(1).value.content) == [Block("f", "new")]
  {
    TwoVersions();
    hide Blocks, PrintAll, Balanced, GoodPath;
    RoundTrip.RoundTrip([Block("f", "old")]);
  }

  lemma CollectedTwo(a: Reply, b: Reply)
    ensures Collected(false, [a, b]) == Blocks(a.content) + Blocks(b.content)
  {
    hide Blocks;
    var none: seq<Reply> := [];
    assert [a, b][..1] == [a] && [a][..0] == none;
    assert Collected(false, [a]) == [] + Blocks(a.content);
  }

  lemma DeletingCollects()
    ensures Captured(Collected(false, Trail(Deleting(), 2)), map[]) == [Block("f", "old"), Block("f", "new")]
  {
    hide Blocks, PrintAll, Trail, Deleting, Collected;
    DeletingAnswers(0);
    DeletingAnswers(1);
    DeletingTrail();
    DeletingBlocks();
    CollectedTwo(Deleting().answer(0).value, Deleting().answer(1).value);
  }
}
