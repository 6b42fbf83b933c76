/**
 * The tool loop: a model is asked again and again, its tool calls are run and the
 * file blocks of its answers collected, until it answers without calling tools.
 * Redirects and failed verifications set a new iteration limit while it runs.
 * Whatever the model, the tools and the file system do is left to chance: it is
 * the world, and what a run does is read off it iteration by iteration.
 */
module ToolLoop {
  import opened Wrappers
  import opened FileBlocks
  import opened RoundTrip
  import opened Pipeline
  import opened FinalResponse

  datatype Verify = Verify(command: string, maxRetries: int, bonusIterations: int)

  datatype Config = Config(tools: bool, shellOnly: bool, verify: Option<Verify>)

  /** An answer of the model; `readOnly` tells that it calls tools only to look at things. */
  datatype Reply = Reply(content: string, calls: nat, readOnly: bool)

  datatype World = World(
    withinBudget: nat -> bool,          // by iteration
    answer: nat -> Option<Reply>,       // by question asked; None for an error
    shrinks: nat -> bool,               // an error in this iteration was an overflow that compacting cures
    passes: nat -> bool,                // by verification
    output: nat -> string,              // by verification
    disk: map<string, string>)          // what can be read back in the end

  /** How a run ended: with an answer, at its limit, or with an error. */
  datatype Ending = Answered | Exhausted | Aborted

  datatype Result = Result(
    ending: Ending, content: string, verifyFailed: bool,
    iterations: nat, questions: nat, verifications: nat, failures: nat, redirects: nat, toolCalls: nat,
    trail: seq<Reply>, accumulated: seq<Block>)

  const DEFAULT_ITERATIONS := 7
  const MAX_REDIRECTS := 2
  const REDIRECT_BONUS := 5
  const STAGNATION := 3

  function Iterations(maxIter: int): nat {
    if maxIter <= 0 then DEFAULT_ITERATIONS else maxIter
  }

  function MaxRetries(v: Verify): nat {
    if v.maxRetries > 0 then v.maxRetries else 2
  }

  function BonusIterations(v: Verify): nat {
    if v.bonusIterations > 0 then v.bonusIterations else 5
  }

  function Retries(cfg: Config): nat {
    if cfg.verify.Some? then MaxRetries(cfg.verify.value) else 0
  }

  function Bonus(cfg: Config): nat {
    if cfg.verify.Some? then BonusIterations(cfg.verify.value) else 0
  }

  function Redirects(cfg: Config): nat {
    if cfg.shellOnly then MAX_REDIRECTS else 0
  }

  /* What comes of a list of answers that called tools. */

  /** Their blocks, in order; in shell-only mode they are ignored. */
  function Collected(shellOnly: bool, trail: seq<Reply>): seq<Block> {
    if shellOnly || trail == [] then []
    else Collected(shellOnly, trail[..|trail| - 1]) + Blocks(trail[|trail| - 1].content)
  }

  /** How many of the last ones only looked at what had been produced before. */
  function Streak(shellOnly: bool, trail: seq<Reply>): nat {
    if trail == [] then 0
    else
      var last := trail[|trail| - 1];
      if Collected(shellOnly, trail) != [] && last.readOnly && Blocks(last.content) == []
      then Streak(shellOnly, trail[..|trail| - 1]) + 1 else 0
  }

  function Calls(trail: seq<Reply>): nat {
    if trail == [] then 0 else Calls(trail[..|trail| - 1]) + trail[|trail| - 1].calls
  }

  /** The collected blocks, with the content of each file as it is on disk. */
  function Captured(bs: seq<Block>, disk: map<string, string>): (r: seq<Block>)
    ensures |r| == |bs| && forall i :: 0 <= i < |bs| ==>
      r[i] == if bs[i].path in disk then Block(bs[i].path, disk[bs[i].path]) else bs[i]
  {
    seq(|bs|, i requires 0 <= i < |bs| =>
      if bs[i].path in disk then Block(bs[i].path, disk[bs[i].path]) else bs[i])
  }

  method CaptureFromScratch(blocks: seq<Block>, disk: map<string, string>) returns (r: seq<Block>)
    ensures r == Captured(blocks, disk)
  {
    r := blocks;
    for i := 0 to |blocks|
      invariant |r| == |blocks|
      invariant forall j :: 0 <= j < |blocks| ==> r[j] == if j < i then Captured(blocks, disk)[j] else blocks[j]
    {
      if r[i].path in disk {
        r := r[i := Block(r[i].path, disk[r[i].path])];
      }
    }
  }

  /** What is put before a result whose verification failed. */
  function FailureTag(v: Verify, output: string): string {
    "## VERIFICATION FAILED\n\nVerification command: " + v.command + "\nOutput:\n" + output + "\n\n---\n\n"
  }

  /* The iterations of a run. */

  /** Questions asked in the first `n` iterations: an overflow that compacting cures is asked again. */
  function QuestionsIn(world: World, n: nat): (q: nat)
    ensures n <= q <= 2 * n
  {
    if n == 0 then 0
    else
      var q := QuestionsIn(world, n - 1);
      q + (if world.answer(q).None? && world.shrinks(n - 1) then 2 else 1)
  }

  /** What the model answers in iteration `i` in the end. */
  function AnswerIn(world: World, i: nat): Option<Reply> {
    world.answer(QuestionsIn(world, i + 1) - 1)
  }

  /** The answers of the first `n` iterations that called tools. */
  function Trail(world: World, n: nat): seq<Reply> {
    if n == 0 then []
    else if AnswerIn(world, n - 1).Some? && AnswerIn(world, n - 1).value.calls > 0
    then Trail(world, n - 1) + [AnswerIn(world, n - 1).value]
    else Trail(world, n - 1)
  }

  predicate TextOnly(world: World, i: nat) {
    AnswerIn(world, i).Some? && AnswerIn(world, i).value.calls == 0
  }

  /** The answer of iteration `i` is sent back to be done in the shell. */
  predicate Redirected(cfg: Config, world: World, i: nat)
    decreases i, 1
  {
    && TextOnly(world, i) && cfg.shellOnly && RedirectsIn(cfg, world, i) < MAX_REDIRECTS
    && (Blocks(AnswerIn(world, i).value.content) != [] || Calls(Trail(world, i)) == 0)
  }

  function RedirectsIn(cfg: Config, world: World, n: nat): nat
    decreases n, 0
  {
    if n == 0 then 0 else RedirectsIn(cfg, world, n - 1) + if Redirected(cfg, world, n - 1) then 1 else 0
  }

  /** Answers without tool calls that were not redirected; if the loop went on, each failed its verification. */
  function FailuresIn(cfg: Config, world: World, n: nat): nat {
    if n == 0 then 0
    else FailuresIn(cfg, world, n - 1) + (if TextOnly(world, n - 1) && !Redirected(cfg, world, n - 1) then 1 else 0)
  }

  /** The iteration limit after the first `n` iterations: set anew by the last answer that was sent back. */
  function LimitIn(cfg: Config, maxIter: int, world: World, n: nat): nat {
    if n == 0 then Iterations(maxIter)
    else if !TextOnly(world, n - 1) then LimitIn(cfg, maxIter, world, n - 1)
    else if Redirected(cfg, world, n - 1) then n + REDIRECT_BONUS
    else n + Bonus(cfg)
  }

  datatype Fate = GoesOn | AtLimit | OverBudget | Unanswered | Stagnates | Accepts

  /** What iteration `i` comes to. */
  function FateOf(cfg: Config, maxIter: int, world: World, i: nat): Fate {
    if i >= LimitIn(cfg, maxIter, world, i) then AtLimit
    else if i > 0 && !world.withinBudget(i) then OverBudget
    else if AnswerIn(world, i).None? then Unanswered
    else if !TextOnly(world, i) then
      if Streak(cfg.shellOnly, Trail(world, i + 1)) >= STAGNATION then Stagnates else GoesOn
    else if Redirected(cfg, world, i) then GoesOn
    else if FailuresIn(cfg, world, i) < Retries(cfg) && !world.passes(FailuresIn(cfg, world, i)) then GoesOn
    else Accepts
  }

  predicate Reaches(cfg: Config, maxIter: int, world: World, n: nat) {
    forall i :: 0 <= i < n ==> FateOf(cfg, maxIter, world, i) == GoesOn
  }

  /** The bound: each redirect and each failed verification can add its bonus. */
  function MostIterations(cfg: Config, maxIter: int): int {
    Iterations(maxIter) + REDIRECT_BONUS * Redirects(cfg) + Retries(cfg) * Bonus(cfg)
  }

  /** The iterations that redirects and failed verifications can still grant after so many of each. */
  function Grants(cfg: Config, redirects: nat, failures: nat): int {
    REDIRECT_BONUS * (Redirects(cfg) - redirects) + (Retries(cfg) - failures) * Bonus(cfg)
  }

  lemma GrantsShrink(cfg: Config, redirects: nat, failures: nat)
    requires redirects <= Redirects(cfg) && failures <= Retries(cfg)
    ensures Grants(cfg, redirects, failures) >= 0
    ensures Grants(cfg, redirects + 1, failures) == Grants(cfg, redirects, failures) - REDIRECT_BONUS
    ensures Grants(cfg, redirects, failures + 1) == Grants(cfg, redirects, failures) - Bonus(cfg)
  {
    Distribute(Retries(cfg) - failures, Bonus(cfg));
  }

  /** Wherever the loop gets, its limit leaves room for all that may still be granted. */
  lemma {:induction false} LimitLeavesRoom(cfg: Config, maxIter: int, world: World, n: nat)
    requires Reaches(cfg, maxIter, world, n)
    ensures RedirectsIn(cfg, world, n) <= Redirects(cfg) && FailuresIn(cfg, world, n) <= Retries(cfg)
    ensures n <= LimitIn(cfg, maxIter, world, n)
    ensures LimitIn(cfg, maxIter, world, n) + Grants(cfg, RedirectsIn(cfg, world, n), FailuresIn(cfg, world, n))
              <= MostIterations(cfg, maxIter)
  {
    if n == 0 {
    } else {
      LimitLeavesRoom(cfg, maxIter, world, n - 1);
      assert FateOf(cfg, maxIter, world, n - 1) == GoesOn;
      hide *;
      RoomIsKept(cfg, maxIter, world, n - 1);
    }
  }

  lemma RoomIsKept(cfg: Config, maxIter: int, world: World, i: nat)
    requires FateOf(cfg, maxIter, world, i) == GoesOn
    requires RedirectsIn(cfg, world, i) <= Redirects(cfg) && FailuresIn(cfg, world, i) <= Retries(cfg)
    requires LimitIn(cfg, maxIter, world, i) + Grants(cfg, RedirectsIn(cfg, world, i), FailuresIn(cfg, world, i))
               <= MostIterations(cfg, maxIter)
    ensures RedirectsIn(cfg, world, i + 1) <= Redirects(cfg) && FailuresIn(cfg, world, i + 1) <= Retries(cfg)
    ensures i + 1 <= LimitIn(cfg, maxIter, world, i + 1)
    ensures LimitIn(cfg, maxIter, world, i + 1)
              + Grants(cfg, RedirectsIn(cfg, world, i + 1), FailuresIn(cfg, world, i + 1))
              <= MostIterations(cfg, maxIter)
  {
    FateIs(cfg, maxIter, world, i);
    if Redirected(cfg, world, i) { RedirectedHasRoom(cfg, world, i); }
    hide Grants, MostIterations, Trail, QuestionsIn, AnswerIn, Blocks, Streak, Calls, FateOf, Redirected,
      RedirectsIn, FailuresIn, LimitIn;
    NextCounts(cfg, maxIter, world, i);
    GrantsShrink(cfg, RedirectsIn(cfg, world, i), FailuresIn(cfg, world, i));
  }

  lemma RedirectedHasRoom(cfg: Config, world: World, i: nat)
    requires Redirected(cfg, world, i)
    ensures TextOnly(world, i) && RedirectsIn(cfg, world, i) < Redirects(cfg)
  {
  }

  lemma WithinBound(cfg: Config, maxIter: int, world: World, n: nat)
    requires Reaches(cfg, maxIter, world, n)
    ensures n <= LimitIn(cfg, maxIter, world, n) <= MostIterations(cfg, maxIter)
    ensures RedirectsIn(cfg, world, n) <= Redirects(cfg) && FailuresIn(cfg, world, n) <= Retries(cfg)
  {
    hide Grants, LimitIn, RedirectsIn, FailuresIn, Reaches;
    LimitLeavesRoom(cfg, maxIter, world, n);
    GrantsShrink(cfg, RedirectsIn(cfg, world, n), FailuresIn(cfg, world, n));
  }

  lemma StillWithinBound(cfg: Config, maxIter: int, world: World, n: nat)
    requires Reaches(cfg, maxIter, world, n) && FateOf(cfg, maxIter, world, n) == GoesOn
    ensures n < MostIterations(cfg, maxIter) && Reaches(cfg, maxIter, world, n + 1)
  {
    hide LimitIn, MostIterations;
    WithinBound(cfg, maxIter, world, n);
  }

  /** The first iteration from `n` on in which the loop does not go on. */
  function EndFrom(cfg: Config, maxIter: int, world: World, n: nat): (e: nat)
    requires Reaches(cfg, maxIter, world, n)
    ensures Reaches(cfg, maxIter, world, e) && FateOf(cfg, maxIter, world, e) != GoesOn
    decreases MostIterations(cfg, maxIter) - n
  {
    if FateOf(cfg, maxIter, world, n) != GoesOn then n
    else
      StillWithinBound(cfg, maxIter, world, n);
      EndFrom(cfg, maxIter, world, n + 1)
  }

  function LoopEnd(cfg: Config, maxIter: int, world: World): (e: nat)
    ensures Reaches(cfg, maxIter, world, e) && FateOf(cfg, maxIter, world, e) != GoesOn
  {
    EndFrom(cfg, maxIter, world, 0)
  }

  lemma EndIs(cfg: Config, maxIter: int, world: World, n: nat)
    requires Reaches(cfg, maxIter, world, n) && FateOf(cfg, maxIter, world, n) != GoesOn
    ensures LoopEnd(cfg, maxIter, world) == n
  {
    hide FateOf, LoopEnd;
    var e := LoopEnd(cfg, maxIter, world);
  }

  /* What a run returns. */

  /** A response without repetitions and with the collected blocks it lacks. */
  function Assembled(reply: Reply, captured: seq<Block>): string {
    Merged(if captured == [] then reply.content else Stripped(reply.content, captured), captured)
  }

  /** The loop came to its limit or stagnated. */
  function Finalized(cfg: Config, world: World, so: Result): Result {
    var failed := cfg.verify.Some? && !world.passes(so.verifications);
    var tag := if failed then FailureTag(cfg.verify.value, world.output(so.verifications)) else "";
    var r := if cfg.verify.Some? then so.(verifications := so.verifications + 1) else so;
    if r.accumulated != [] then
      r.(ending := Exhausted, verifyFailed := failed,
         content := tag + Synthesized(Captured(r.accumulated, world.disk)))
    else
      var first := world.answer(so.questions);
      if first.None? || (first.value.calls > 0 && !cfg.shellOnly) then r.(questions := so.questions + 1)
      else if first.value.calls == 0 then
        r.(ending := Exhausted, verifyFailed := failed, questions := so.questions + 1,
           content := tag + first.value.content)
      else
        var second := world.answer(so.questions + 1);
        r.(ending := Exhausted, verifyFailed := failed, questions := so.questions + 2,
           toolCalls := so.toolCalls + first.value.calls,
           content := tag + if second.Some? then second.value.content else first.value.content)
  }

  /** The iterations in which a question was asked, if the loop ended in iteration `n`. */
  function HeardIn(n: nat, fate: Fate): nat {
    if fate.Unanswered? || fate.Stagnates? || fate.Accepts? then n + 1 else n
  }

  /** What the loop has gathered when it ends in iteration `n`. */
  function Gathered(cfg: Config, world: World, n: nat, fate: Fate): Result {
    var heard := HeardIn(n, fate);
    var trail := Trail(world, heard);
    Result(
      Aborted, "", false, heard, QuestionsIn(world, heard),
      FailuresIn(cfg, world, n), FailuresIn(cfg, world, n), RedirectsIn(cfg, world, n),
      Calls(trail), trail, Collected(cfg.shellOnly, trail))
  }

  function Returned(cfg: Config, world: World, n: nat, fate: Fate): Result {
    var so := Gathered(cfg, world, n, fate);
    if fate.Accepts? && AnswerIn(world, n).Some? then
      so.(ending := Answered,
          verifications := so.failures + if so.failures < Retries(cfg) then 1 else 0,
          content := Assembled(AnswerIn(world, n).value, Captured(so.accumulated, world.disk)))
    else if fate.AtLimit? || fate.Stagnates? then Finalized(cfg, world, so)
    else so
  }

  function ResultOf(cfg: Config, maxIter: int, world: World): Result {
    var n := LoopEnd(cfg, maxIter, world);
    Returned(cfg, world, n, FateOf(cfg, maxIter, world, n))
  }

  /** Without tools there is one question and no loop. */
  function Untooled(world: World): Result {
    var r := Result(Aborted, "", false, 0, 1, 0, 0, 0, 0, [], []);
    if world.answer(0).Some? then r.(ending := Answered, content := world.answer(0).value.content) else r
  }

  /* The same, as the loop that computes it. */

  /** One iteration's question, asked once more if compacting the history helps. */
  method Ask(world: World, i: nat, asked: nat) returns (reply: Option<Reply>, questions: nat)
    requires asked == QuestionsIn(world, i)
    ensures reply == AnswerIn(world, i) && questions == QuestionsIn(world, i + 1)
  {
    reply := world.answer(asked);
    questions := asked + 1;
    if reply.None? && world.shrinks(i) {
      reply := world.answer(questions);
      questions := questions + 1;
    }
  }

  method Assemble(world: World, reply: Reply, accumulated: seq<Block>) returns (content: string)
    ensures content == Assembled(reply, Captured(accumulated, world.disk))
  {
    hide Merged, Stripped;
    content := reply.content;
    var captured := accumulated;
    if |accumulated| > 0 {
      captured := CaptureFromScratch(accumulated, world.disk);
      content := StripRedundantBlocks(content, captured);
    }
    content := MergeAccumulatedBlocks(content, captured);
  }

  /** An answer without tool calls that is sent back to be done in the shell. */
  method WantsRedirect(cfg: Config, reply: Reply, redirects: nat, toolCalls: nat) returns (yes: bool)
    ensures yes <==> cfg.shellOnly && redirects < MAX_REDIRECTS && (Blocks(reply.content) != [] || toolCalls == 0)
  {
    hide Blocks;
    yes := false;
    if cfg.shellOnly && redirects < MAX_REDIRECTS {
      var blocks, _ := ParseFileBlocks(reply.content);
      yes := |blocks| > 0 || toolCalls == 0;
    }
  }

  method Finalize(cfg: Config, world: World, so: Result) returns (r: Result)
    requires so.ending.Aborted? && !so.verifyFailed
    ensures r == Finalized(cfg, world, so)
  {
    hide Synthesized, Captured, FailureTag;
    r := so;
    var tag, failed := "", false;
    if cfg.verify.Some? {
      r := r.(verifications := so.verifications + 1);
      if !world.passes(so.verifications) {
        tag := FailureTag(cfg.verify.value, world.output(so.verifications));
        failed := true;
      }
    }
    if |so.accumulated| > 0 {
      var captured := CaptureFromScratch(so.accumulated, world.disk);
      var content := SynthesizeFinalFromAccumulated(captured);
      return r.(ending := Exhausted, verifyFailed := failed, content := tag + content);
    }
    var reply := world.answer(so.questions);
    r := r.(questions := so.questions + 1);
    if reply.None? { return; }
    if reply.value.calls > 0 {
      if !cfg.shellOnly { return; }
      r := r.(questions := so.questions + 2, toolCalls := so.toolCalls + reply.value.calls);
      if world.answer(so.questions + 1).Some? {
        reply := world.answer(so.questions + 1);
      }
    }
    r := r.(ending := Exhausted, verifyFailed := failed, content := tag + reply.value.content);
  }

  lemma TrailGrows(shellOnly: bool, trail: seq<Reply>, reply: Reply)
    ensures Calls(trail + [reply]) == Calls(trail) + reply.calls
    ensures Collected(shellOnly, trail + [reply]) ==
      if shellOnly then [] else Collected(shellOnly, trail) + Blocks(reply.content)
    ensures Streak(shellOnly, trail + [reply]) ==
      if Collected(shellOnly, trail + [reply]) != [] && reply.readOnly && Blocks(reply.content) == []
      then Streak(shellOnly, trail) + 1 else 0
  {
    hide Blocks;
    assert (trail + [reply])[..|trail|] == trail;
  }

  /** How an iteration that calls tools, or does not, changes what is counted. */
  lemma NextCounts(cfg: Config, maxIter: int, world: World, i: nat)
    requires AnswerIn(world, i).Some?
    ensures
      if TextOnly(world, i) then
        && Trail(world, i + 1) == Trail(world, i)
        && RedirectsIn(cfg, world, i + 1) == RedirectsIn(cfg, world, i) + (if Redirected(cfg, world, i) then 1 else 0)
        && FailuresIn(cfg, world, i + 1) == FailuresIn(cfg, world, i) + (if Redirected(cfg, world, i) then 0 else 1)
        && LimitIn(cfg, maxIter, world, i + 1) ==
             i + 1 + (if Redirected(cfg, world, i) then REDIRECT_BONUS else Bonus(cfg))
      else
        && Trail(world, i + 1) == Trail(world, i) + [AnswerIn(world, i).value]
        && RedirectsIn(cfg, world, i + 1) == RedirectsIn(cfg, world, i)
        && FailuresIn(cfg, world, i + 1) == FailuresIn(cfg, world, i)
        && LimitIn(cfg, maxIter, world, i + 1) == LimitIn(cfg, maxIter, world, i)
  {
    hide AnswerIn, QuestionsIn, Blocks, Calls;
  }

  method GenerateWithTools(cfg: Config, maxIter0: int, world: World) returns (r: Result)
    ensures r == if cfg.tools then ResultOf(cfg, maxIter0, world) else Untooled(world)
    ensures !cfg.tools ==> r.questions == 1 && r.trail == []
    ensures !cfg.tools && world.answer(0).None? ==> r.ending.Aborted?
    ensures !cfg.tools && world.answer(0).Some? ==> r.ending.Answered? && r.content == world.answer(0).value.content
  {
    hide Blocks, QuestionsIn, AnswerIn, Trail, Redirected, RedirectsIn, FailuresIn, LimitIn, MostIterations,
      Collected, Streak, Calls, Assembled, Finalized, LoopEnd, FateOf;
    if !cfg.tools {
      r := Result(Aborted, "", false, 0, 1, 0, 0, 0, 0, [], []);
      if world.answer(0).Some? {
        r := r.(ending := Answered, content := world.answer(0).value.content);
      }
      return;
    }
    var maxIter: nat := if maxIter0 <= 0 then DEFAULT_ITERATIONS else maxIter0;
    var accumulated: seq<Block> := [];
    var trail: seq<Reply> := [];
    var verifyStreak, toolCallCount, verifyAttempt, shellRedirCount, questions := 0, 0, 0, 0, 0;
    var i := 0;
    NothingYet(cfg, maxIter0, world);
    while i < maxIter
      invariant Reaches(cfg, maxIter0, world, i) && maxIter == LimitIn(cfg, maxIter0, world, i)
      invariant questions == QuestionsIn(world, i)
      invariant trail == Trail(world, i) && accumulated == Collected(cfg.shellOnly, trail)
      invariant toolCallCount == Calls(trail) && verifyStreak == Streak(cfg.shellOnly, trail)
      invariant verifyAttempt == FailuresIn(cfg, world, i) && shellRedirCount == RedirectsIn(cfg, world, i)
      decreases MostIterations(cfg, maxIter0) - i
    {
      WithinBound(cfg, maxIter0, world, i);
      FateIs(cfg, maxIter0, world, i);
      if i > 0 && !world.withinBudget(i) {
        EndIs(cfg, maxIter0, world, i);
        return Result(Aborted, "", false, i, questions, verifyAttempt, verifyAttempt, shellRedirCount,
                      toolCallCount, trail, accumulated);
      }
      var answer;
      answer, questions := Ask(world, i, questions);
      if answer.None? {
        NoAnswerNoTrail(world, i);
        EndIs(cfg, maxIter0, world, i);
        return Result(Aborted, "", false, i + 1, questions, verifyAttempt, verifyAttempt, shellRedirCount,
                      toolCallCount, trail, accumulated);
      }
      var reply := answer.value;
      NextCounts(cfg, maxIter0, world, i);
      if reply.calls == 0 {
        var redirected := WantsRedirect(cfg, reply, shellRedirCount, toolCallCount);
        RedirectedIs(cfg, world, i);
        if redirected {
          shellRedirCount := shellRedirCount + 1;
          maxIter := i + 1 + REDIRECT_BONUS;
          i := i + 1;
          continue;
        }
        var verifications := verifyAttempt;
        if cfg.verify.Some? && verifyAttempt < MaxRetries(cfg.verify.value) {
          if !world.passes(verifyAttempt) {
            verifyAttempt := verifyAttempt + 1;
            maxIter := i + 1 + BonusIterations(cfg.verify.value);
            i := i + 1;
            continue;
          }
          verifications := verifications + 1;
        }
        EndIs(cfg, maxIter0, world, i);
        var content := Assemble(world, reply, accumulated);
        return Result(Answered, content, false, i + 1, questions, verifications, verifyAttempt, shellRedirCount,
                      toolCallCount, trail, accumulated);
      }
      TrailGrows(cfg.shellOnly, trail, reply);
      var blocks, summary := [], "";
      if !cfg.shellOnly {
        blocks, summary := ParseFileBlocks(reply.content);
      }
      ShellOnlyCollectsNothing(cfg.shellOnly, trail);
      accumulated := accumulated + blocks;
      trail := trail + [reply];
      toolCallCount := toolCallCount + reply.calls;
      if |accumulated| > 0 && reply.readOnly && |blocks| == 0 {
        verifyStreak := verifyStreak + 1;
      } else {
        verifyStreak := 0;
      }
      if verifyStreak >= STAGNATION {
        EndIs(cfg, maxIter0, world, i);
        r := Finalize(cfg, world, Result(
          Aborted, "", false, i + 1, questions, verifyAttempt, verifyAttempt, shellRedirCount,
          toolCallCount, trail, accumulated));
        return;
      }
      i := i + 1;
    }
    FateIs(cfg, maxIter0, world, i);
    EndIs(cfg, maxIter0, world, i);
    r := Finalize(cfg, world, Result(
      Aborted, "", false, i, questions, verifyAttempt, verifyAttempt, shellRedirCount,
      toolCallCount, trail, accumulated));
  }

  lemma NothingYet(cfg: Config, maxIter: int, world: World)
    ensures LimitIn(cfg, maxIter, world, 0) == Iterations(maxIter) && QuestionsIn(world, 0) == 0
    ensures Trail(world, 0) == [] && Collected(cfg.shellOnly, []) == [] && Calls([]) == 0
    ensures Streak(cfg.shellOnly, []) == 0 && FailuresIn(cfg, world, 0) == 0 && RedirectsIn(cfg, world, 0) == 0
  {
  }

  lemma ShellOnlyCollectsNothing(shellOnly: bool, trail: seq<Reply>)
    ensures shellOnly ==> Collected(shellOnly, trail) == []
  {
  }

  lemma NoAnswerNoTrail(world: World, i: nat)
    requires AnswerIn(world, i).None?
    ensures Trail(world, i + 1) == Trail(world, i)
  {
    hide AnswerIn;
  }

  lemma RedirectedIs(cfg: Config, world: World, i: nat)
    requires TextOnly(world, i)
    ensures Redirected(cfg, world, i) <==>
      cfg.shellOnly && RedirectsIn(cfg, world, i) < MAX_REDIRECTS &&
      (Blocks(AnswerIn(world, i).value.content) != [] || Calls(Trail(world, i)) == 0)
  {
    hide AnswerIn, Blocks, Calls, Trail;
  }

  lemma FateIs(cfg: Config, maxIter: int, world: World, i: nat)
    ensures FateOf(cfg, maxIter, world, i) ==
      if i >= LimitIn(cfg, maxIter, world, i) then AtLimit
      else if i > 0 && !world.withinBudget(i) then OverBudget
      else if AnswerIn(world, i).None? then Unanswered
      else if !TextOnly(world, i) then
        if Streak(cfg.shellOnly, Trail(world, i + 1)) >= STAGNATION then Stagnates else GoesOn
      else if Redirected(cfg, world, i) then GoesOn
      else if FailuresIn(cfg, world, i) < Retries(cfg) && !world.passes(FailuresIn(cfg, world, i)) then GoesOn
      else Accepts
  {
  }

  /* What that is worth. */

  /** Iterations, questions and verifications are bounded, whatever the world does. */
  lemma RunIsBounded(cfg: Config, maxIter: int, world: World)
    ensures
      var r := ResultOf(cfg, maxIter, world);
      var retries := if cfg.verify.None? then 0 else if cfg.verify.value.maxRetries > 0 then cfg.verify.value.maxRetries else 2;
      var bonus :=
        if cfg.verify.None? then 0 else if cfg.verify.value.bonusIterations > 0 then cfg.verify.value.bonusIterations else 5;
      && r.iterations <= (if maxIter <= 0 then 7 else maxIter) + (if cfg.shellOnly then 10 else 0) + retries * bonus
      && r.questions <= 2 * r.iterations + 2
      && r.failures <= retries && r.redirects <= (if cfg.shellOnly then 2 else 0)
      && r.verifications <= retries + 1
      && (cfg.verify.None? ==> r.verifications == 0)
  {
    AsConfigured(cfg, maxIter);
    hide LoopEnd, FateOf, Reaches, MostIterations, RedirectsIn, FailuresIn, LimitIn, Returned, Retries, Redirects;
    var n := LoopEnd(cfg, maxIter, world);
    WithinBound(cfg, maxIter, world, n);
    FateIs(cfg, maxIter, world, n);
    ReturnedCounts(cfg, world, n, FateOf(cfg, maxIter, world, n));
  }

  /** What the configuration, with its defaults, allows. */
  lemma AsConfigured(cfg: Config, maxIter: int)
    ensures
      var retries := if cfg.verify.None? then 0 else if cfg.verify.value.maxRetries > 0 then cfg.verify.value.maxRetries else 2;
      var bonus :=
        if cfg.verify.None? then 0 else if cfg.verify.value.bonusIterations > 0 then cfg.verify.value.bonusIterations else 5;
      && Retries(cfg) == retries && Redirects(cfg) == (if cfg.shellOnly then 2 else 0)
      && MostIterations(cfg, maxIter) ==
           (if maxIter <= 0 then 7 else maxIter) + (if cfg.shellOnly then 10 else 0) + retries * bonus
  {
  }

  /** How the figures of a result come from the iteration in which the loop ended. */
  lemma ReturnedCounts(cfg: Config, world: World, n: nat, fate: Fate)
    ensures
      var r := Returned(cfg, world, n, fate);
      && r.iterations == HeardIn(n, fate) && r.questions <= 2 * r.iterations + 2
      && r.failures == FailuresIn(cfg, world, n) && r.redirects == RedirectsIn(cfg, world, n)
      && r.failures <= r.verifications <= r.failures + 1
      && (r.verifications > r.failures ==> cfg.verify.Some?)
  {
    hide Trail, Calls, Collected, Synthesized, Captured, Assembled, FailureTag, AnswerIn, QuestionsIn, FailuresIn, RedirectsIn;
  }

  /** The answers that called tools among the first `q` questions. */
  function CallingAmong(world: World, q: nat): seq<Reply> {
    if q == 0 then []
    else if world.answer(q - 1).Some? && world.answer(q - 1).value.calls > 0
    then CallingAmong(world, q - 1) + [world.answer(q - 1).value]
    else CallingAmong(world, q - 1)
  }

  /** No answer that called tools is left out of the trail: a question is asked again only if it had no answer. */
  lemma {:induction false} TrailIsComplete(world: World, n: nat)
    ensures Trail(world, n) == CallingAmong(world, QuestionsIn(world, n))
  {
    if n == 0 {
    } else {
      TrailIsComplete(world, n - 1);
      var q := QuestionsIn(world, n - 1);
      assert QuestionsIn(world, n) == q + if world.answer(q).None? && world.shrinks(n - 1) then 2 else 1;
      assert CallingAmong(world, q + 1) ==
        if world.answer(q).Some? && world.answer(q).value.calls > 0
        then CallingAmong(world, q) + [world.answer(q).value] else CallingAmong(world, q);
    }
  }

  /** The trail of a result is all answers that called tools in the loop. */
  lemma ResultTrail(cfg: Config, maxIter: int, world: World)
    ensures
      var r := ResultOf(cfg, maxIter, world);
      && r.trail == CallingAmong(world, QuestionsIn(world, r.iterations))
      && r.accumulated == Collected(cfg.shellOnly, r.trail)
      && (r.ending.Answered? ==> r.questions == QuestionsIn(world, r.iterations) && r.toolCalls == Calls(r.trail))
  {
    var n := LoopEnd(cfg, maxIter, world);
    TrailIsComplete(world, HeardIn(n, FateOf(cfg, maxIter, world, n)));
    hide LoopEnd, FateOf, Trail, QuestionsIn, CallingAmong, Collected, Synthesized, Captured, Assembled, FailureTag,
      HeardIn, RedirectsIn, FailuresIn, Calls;
  }

  /** Every verification that sent an answer back has failed. */
  lemma {:induction false} FailuresFailed(cfg: Config, maxIter: int, world: World, n: nat, k: nat)
    requires Reaches(cfg, maxIter, world, n) && k < FailuresIn(cfg, world, n)
    ensures !world.passes(k)
  {
    assert FateOf(cfg, maxIter, world, n - 1) == GoesOn;
    if k < FailuresIn(cfg, world, n - 1) {
      FailuresFailed(cfg, maxIter, world, n - 1, k);
    }
  }

  /** Every iteration with a question is accounted for: it called tools, was sent back, or was the last. */
  lemma {:induction false} IterationsAddUp(cfg: Config, maxIter: int, world: World, n: nat)
    requires Reaches(cfg, maxIter, world, n)
    ensures n == |Trail(world, n)| + RedirectsIn(cfg, world, n) + FailuresIn(cfg, world, n)
  {
    if n == 0 {
    } else {
      IterationsAddUp(cfg, maxIter, world, n - 1);
      assert FateOf(cfg, maxIter, world, n - 1) == GoesOn;
      hide QuestionsIn, AnswerIn, Calls, Blocks, Redirected;
      NextCounts(cfg, maxIter, world, n - 1);
    }
  }

  /* How a run ends. */

  /** The loop is over without an answer and the model has to be asked for a last one. */
  predicate AsksOnceMore(cfg: Config, maxIter: int, world: World) {
    var n := LoopEnd(cfg, maxIter, world);
    var fate := FateOf(cfg, maxIter, world, n);
    (fate.AtLimit? || fate.Stagnates?) && Collected(cfg.shellOnly, Trail(world, HeardIn(n, fate))) == []
  }

  /**
   * A run aborts exactly if the budget is refused, a question stays unanswered, or
   * the last answer still calls tools outside shell-only mode.  This is a summary of
   * the cases of `Fate` for a caller who only asks whether there is an error.
   */
  lemma AbortsExactly(cfg: Config, maxIter: int, world: World)
    ensures
      var n := LoopEnd(cfg, maxIter, world);
      var last := world.answer(QuestionsIn(world, HeardIn(n, FateOf(cfg, maxIter, world, n))));
      ResultOf(cfg, maxIter, world).ending.Aborted? <==>
        || (n < LimitIn(cfg, maxIter, world, n) && n > 0 && !world.withinBudget(n))
        || (n < LimitIn(cfg, maxIter, world, n) && AnswerIn(world, n).None?)
        || (AsksOnceMore(cfg, maxIter, world) && (last.None? || (last.value.calls > 0 && !cfg.shellOnly)))
  {
    var n := LoopEnd(cfg, maxIter, world);
    FateIs(cfg, maxIter, world, n);
    hide LoopEnd, FateOf, Trail, QuestionsIn, Collected, Synthesized, Captured, Assembled, FailureTag,
      RedirectsIn, FailuresIn, Calls, Streak, Redirected, AnswerIn, LimitIn;
  }

  lemma ReturnedForced(cfg: Config, world: World, n: nat, fate: Fate)
    requires Returned(cfg, world, n, fate).ending.Exhausted?
    ensures
      var r := Returned(cfg, world, n, fate);
      (fate.AtLimit? && r.iterations == n) || (fate.Stagnates? && r.trail == Trail(world, n + 1))
  {
    hide Trail, Collected, Synthesized, Captured, Assembled, FailureTag, RedirectsIn, FailuresIn, Calls, QuestionsIn, AnswerIn;
  }

  /** A response is forced only when the limit is reached, or after three answers in a row that only looked. */
  lemma ForcedExactlyAtLimit(cfg: Config, maxIter: int, world: World)
    requires ResultOf(cfg, maxIter, world).ending.Exhausted?
    ensures
      var r := ResultOf(cfg, maxIter, world);
      r.iterations == LimitIn(cfg, maxIter, world, r.iterations) || Streak(cfg.shellOnly, r.trail) == STAGNATION
  {
    hide Returned, LoopEnd, FateOf, Reaches, Streak, LimitIn, MostIterations, Redirects, RedirectsIn, FailuresIn,
      Retries, QuestionsIn, AnswerIn;
    var n := LoopEnd(cfg, maxIter, world);
    ReturnedForced(cfg, world, n, FateOf(cfg, maxIter, world, n));
    FateIs(cfg, maxIter, world, n);
    WithinBound(cfg, maxIter, world, n);
    if FateOf(cfg, maxIter, world, n).Stagnates? {
      StreakGrowsByOne(cfg, maxIter, world, n);
    }
  }

  lemma StreakGrowsByOne(cfg: Config, maxIter: int, world: World, n: nat)
    requires Reaches(cfg, maxIter, world, n) && AnswerIn(world, n).Some? && !TextOnly(world, n)
    ensures Streak(cfg.shellOnly, Trail(world, n + 1)) <= STAGNATION
  {
    hide QuestionsIn, AnswerIn, Blocks, Collected, Calls, FateOf;
    StreaksStayShort(cfg, maxIter, world, n);
    NextCounts(cfg, maxIter, world, n);
    hide Trail, Streak;
    TrailGrows(cfg.shellOnly, Trail(world, n), AnswerIn(world, n).value);
  }

  lemma {:induction false} StreaksStayShort(cfg: Config, maxIter: int, world: World, n: nat)
    requires Reaches(cfg, maxIter, world, n)
    ensures Streak(cfg.shellOnly, Trail(world, n)) < STAGNATION
  {
    if n == 0 {
    } else {
      assert FateOf(cfg, maxIter, world, n - 1) == GoesOn;
      StreaksStayShort(cfg, maxIter, world, n - 1);
      FateIs(cfg, maxIter, world, n - 1);
      hide FateOf, Streak, QuestionsIn, AnswerIn, Blocks, Calls, Redirected, LimitIn;
      if TextOnly(world, n - 1) { NextCounts(cfg, maxIter, world, n - 1); }
    }
  }

  /** The answer only looked at what had been produced before. */
  predicate OnlyLooks(reply: Reply) {
    reply.readOnly && Blocks(reply.content) == []
  }

  lemma {:induction false} StreakIs(shellOnly: bool, trail: seq<Reply>, k: nat)
    requires 0 < k <= |trail|
    ensures Streak(shellOnly, trail) >= k <==>
      Collected(shellOnly, trail[..|trail| - k]) != [] && forall i :: |trail| - k <= i < |trail| ==> OnlyLooks(trail[i])
  {
    hide Blocks;
    var n := |trail| - 1;
    var before := trail[..n];
    assert trail == before + [trail[n]];
    if k == 1 {
      LookCollectsNothing(shellOnly, before, trail[n]);
    } else {
      StreakIs(shellOnly, before, k - 1);
      assert before[..n - (k - 1)] == trail[..|trail| - k];
      TrailGrows(shellOnly, before, trail[n]);
      LookCollectsNothing(shellOnly, before, trail[n]);
      if Collected(shellOnly, before[..|trail| - k]) != [] { CollectedStays(shellOnly, before, |trail| - k); }
    }
  }

  lemma LookCollectsNothing(shellOnly: bool, trail: seq<Reply>, reply: Reply)
    ensures OnlyLooks(reply) ==> Collected(shellOnly, trail + [reply]) == Collected(shellOnly, trail)
    ensures Streak(shellOnly, trail + [reply]) > 0 <==> Collected(shellOnly, trail) != [] && OnlyLooks(reply)
  {
    TrailGrows(shellOnly, trail, reply);
    if shellOnly { ShellOnlyCollectsNothing(shellOnly, trail); }
    hide Blocks;
  }

  lemma {:induction false} CollectedStays(shellOnly: bool, trail: seq<Reply>, m: nat)
    requires m <= |trail| && Collected(shellOnly, trail[..m]) != []
    ensures Collected(shellOnly, trail) != []
  {
    if m == |trail| {
      assert trail[..m] == trail;
    } else {
      assert trail[..|trail| - 1][..m] == trail[..m];
      CollectedStays(shellOnly, trail[..|trail| - 1], m);
    }
  }

  lemma {:induction false} TrailSoFar(world: World, n: nat, m: nat) returns (k: nat)
    requires m <= |Trail(world, n)|
    ensures k <= n && Trail(world, k) == Trail(world, n)[..m]
  {
    k := n;
    if m < |Trail(world, n)| {
      hide AnswerIn;
      k := TrailSoFar(world, n - 1, m);
      assert Trail(world, n - 1)[..m] == Trail(world, n)[..m];
    } else {
      assert Trail(world, n)[..m] == Trail(world, n);
    }
  }

  /** Three answers in a row that only look at what has been collected. */
  predicate ThreeLooks(shellOnly: bool, trail: seq<Reply>, m: nat)
    requires m + 3 <= |trail|
  {
    Collected(shellOnly, trail[..m]) != [] && forall i :: m <= i < m + 3 ==> OnlyLooks(trail[i])
  }

  /**
   * Three answers in a row that only look end the loop at once, and without an answer of the
   * model's own; a loop that is forced to end has come to its limit or ends with three such.
   */
  lemma StagnationExactly(cfg: Config, maxIter: int, world: World, m: nat)
    requires m + 3 <= |ResultOf(cfg, maxIter, world).trail|
    requires ThreeLooks(cfg.shellOnly, ResultOf(cfg, maxIter, world).trail, m)
    ensures m + 3 == |ResultOf(cfg, maxIter, world).trail| && !ResultOf(cfg, maxIter, world).ending.Answered?
  {
    var n := LoopEnd(cfg, maxIter, world);
    var fate := FateOf(cfg, maxIter, world, n);
    var r := ResultOf(cfg, maxIter, world);
    ReturnedTrail(cfg, world, n, fate);
    StreaksStayShort(cfg, maxIter, world, n);
    if r.ending.Answered? {
      ReturnedAnswer(cfg, world, n, fate);
      AcceptedFate(cfg, maxIter, world, n);
      NextCounts(cfg, maxIter, world, n);
    }
    hide LoopEnd, FateOf, Trail, QuestionsIn, AnswerIn, Collected, Streak, OnlyLooks, Returned, ResultOf;
    if m + 3 < |r.trail| || r.ending.Answered? {
      EarlierStreaksAreShort(cfg, maxIter, world, n, HeardIn(n, fate), m);
    }
  }

  /** Within the trail of a loop that goes on there is no such streak before the last answer. */
  lemma EarlierStreaksAreShort(cfg: Config, maxIter: int, world: World, n: nat, heard: nat, m: nat)
    requires Reaches(cfg, maxIter, world, n) && n <= heard <= n + 1
    requires m + 3 <= |Trail(world, heard)|
    requires m + 3 < |Trail(world, heard)| || Trail(world, heard) == Trail(world, n)
    ensures !ThreeLooks(cfg.shellOnly, Trail(world, heard), m)
  {
    hide FateOf, QuestionsIn, AnswerIn, Streak, Collected, OnlyLooks, LimitIn;
    var trail := Trail(world, heard);
    if m + 3 < |trail| { TrailByOne(world, n); }
    assert m + 3 <= |Trail(world, n)| && Trail(world, n)[..m + 3] == trail[..m + 3];
    var k := TrailSoFar(world, n, m + 3);
    assert Reaches(cfg, maxIter, world, k);
    StreaksStayShort(cfg, maxIter, world, k);
    StreakIs(cfg.shellOnly, trail[..m + 3], 3);
    assert trail[..m + 3][..m] == trail[..m];
  }

  lemma TrailByOne(world: World, n: nat)
    ensures Trail(world, n) <= Trail(world, n + 1) && |Trail(world, n + 1)| <= |Trail(world, n)| + 1
  {
    hide AnswerIn;
  }

  lemma ReturnedTrail(cfg: Config, world: World, n: nat, fate: Fate)
    ensures Returned(cfg, world, n, fate).trail == Trail(world, HeardIn(n, fate))
  {
    hide Trail, Collected, Synthesized, Captured, Assembled, FailureTag, RedirectsIn, FailuresIn, Calls, QuestionsIn, AnswerIn;
  }

  /** No answer has been sent back yet: the limit is what was asked for, or seven. */
  lemma {:induction false} LimitAtFirst(cfg: Config, maxIter: int, world: World, n: nat)
    requires forall i :: 0 <= i < n ==> !TextOnly(world, i)
    ensures LimitIn(cfg, maxIter, world, n) == if maxIter <= 0 then 7 else maxIter
  {
    hide TextOnly;
    if n > 0 { LimitAtFirst(cfg, maxIter, world, n - 1); }
  }

  /** The last answer that was sent back gives five more iterations to a redirect, to a retry what is configured. */
  lemma {:induction false} LimitIsSetAnew(cfg: Config, maxIter: int, world: World, n: nat, i: nat)
    requires i < n && TextOnly(world, i) && forall k :: i < k < n ==> !TextOnly(world, k)
    ensures LimitIn(cfg, maxIter, world, n) == i + 1 +
      if Redirected(cfg, world, i) then 5
      else if cfg.verify.None? then 0
      else if cfg.verify.value.bonusIterations > 0 then cfg.verify.value.bonusIterations else 5
  {
    hide TextOnly, Redirected;
    if i < n - 1 { LimitIsSetAnew(cfg, maxIter, world, n - 1, i); }
  }

  /**
   * What can be answered without calling tools in shell-only mode: nothing with file blocks, and
   * nothing before a tool was called, unless two such answers have been sent back already.
   */
  lemma AnswerWasNoRedirect(cfg: Config, maxIter: int, world: World)
    requires ResultOf(cfg, maxIter, world).ending.Answered? && cfg.shellOnly
    requires ResultOf(cfg, maxIter, world).redirects < 2
    ensures
      var r := ResultOf(cfg, maxIter, world);
      r.questions > 0 && world.answer(r.questions - 1).Some? &&
      Blocks(world.answer(r.questions - 1).value.content) == [] && r.toolCalls > 0
  {
    ResultTrail(cfg, maxIter, world);
    var n := LoopEnd(cfg, maxIter, world);
    var fate := FateOf(cfg, maxIter, world, n);
    hide LoopEnd, FateOf, Trail, QuestionsIn, Blocks, Calls, Returned, Redirected, RedirectsIn, TextOnly;
    ReturnedAnswer(cfg, world, n, fate);
    ReturnedCounts(cfg, world, n, fate);
    ReturnedTrail(cfg, world, n, fate);
    AcceptedIsNoRedirect(cfg, maxIter, world, n);
    RedirectedIs(cfg, world, n);
  }

  lemma AcceptedIsNoRedirect(cfg: Config, maxIter: int, world: World, n: nat)
    requires FateOf(cfg, maxIter, world, n).Accepts?
    ensures TextOnly(world, n) && !Redirected(cfg, world, n) && Trail(world, n + 1) == Trail(world, n)
  {
    FateIs(cfg, maxIter, world, n);
    hide FateOf, Redirected, AnswerIn;
  }

  /** An answer is returned only if it was accepted, and then with these figures. */
  lemma ReturnedAnswer(cfg: Config, world: World, n: nat, fate: Fate)
    requires Returned(cfg, world, n, fate).ending.Answered?
    ensures
      var r := Returned(cfg, world, n, fate);
      && fate.Accepts? && AnswerIn(world, n).Some?
      && r.questions == QuestionsIn(world, n + 1) && r.failures == FailuresIn(cfg, world, n)
      && r.verifications == r.failures + (if r.failures < Retries(cfg) then 1 else 0)
      && !r.verifyFailed
      && r.content == Assembled(AnswerIn(world, n).value, Captured(r.accumulated, world.disk))
  {
    hide Trail, Collected, Synthesized, Captured, Assembled, FailureTag, RedirectsIn, FailuresIn, Calls, QuestionsIn, AnswerIn;
  }

  lemma AcceptedFate(cfg: Config, maxIter: int, world: World, n: nat)
    requires FateOf(cfg, maxIter, world, n).Accepts?
    ensures TextOnly(world, n)
    ensures FailuresIn(cfg, world, n) < Retries(cfg) ==> world.passes(FailuresIn(cfg, world, n))
  {
    FateIs(cfg, maxIter, world, n);
  }

  /**
   * What is returned as the model's answer is its last one, without tool calls.  If
   * it was verified at all it passed; otherwise every retry had failed before it,
   * and it is returned neither verified nor marked as failed.
   */
  lemma AnswerIsTheLastOne(cfg: Config, maxIter: int, world: World)
    requires ResultOf(cfg, maxIter, world).ending.Answered?
    ensures
      var r := ResultOf(cfg, maxIter, world);
      && r.questions > 0 && world.answer(r.questions - 1).Some? && world.answer(r.questions - 1).value.calls == 0
      && r.content == Assembled(world.answer(r.questions - 1).value, Captured(r.accumulated, world.disk))
      && !r.verifyFailed
      && (forall k :: 0 <= k < r.failures ==> !world.passes(k))
      && (var retries :=
            if cfg.verify.None? then 0 else if cfg.verify.value.maxRetries > 0 then cfg.verify.value.maxRetries else 2;
          if r.failures < retries then r.verifications == r.failures + 1 && world.passes(r.failures)
          else r.verifications == r.failures == retries)
  {
    AsConfigured(cfg, maxIter);
    hide Returned, LoopEnd, FateOf, Assembled, Captured, FailuresIn, Reaches, Retries, MostIterations, Redirects,
      RedirectsIn, LimitIn;
    var n := LoopEnd(cfg, maxIter, world);
    ReturnedAnswer(cfg, world, n, FateOf(cfg, maxIter, world, n));
    AcceptedFate(cfg, maxIter, world, n);
    WithinBound(cfg, maxIter, world, n);
    forall k | 0 <= k < FailuresIn(cfg, world, n) ensures !world.passes(k) {
      FailuresFailed(cfg, maxIter, world, n, k);
    }
  }

  /** In a forced response a failed verification is marked, and only that. */
  lemma ForcedIsVerified(cfg: Config, maxIter: int, world: World)
    requires ResultOf(cfg, maxIter, world).ending.Exhausted?
    ensures
      var r := ResultOf(cfg, maxIter, world);
      && r.verifications == r.failures + (if cfg.verify.Some? then 1 else 0)
      && (r.verifyFailed <==> cfg.verify.Some? && !world.passes(r.failures))
      && (r.verifyFailed ==>
            "## VERIFICATION FAILED\n\nVerification command: " + cfg.verify.value.command + "\nOutput:\n"
            + world.output(r.failures) + "\n\n---\n\n" <= r.content)
  {
    if ResultOf(cfg, maxIter, world).verifyFailed {
      TagSays(cfg.verify.value, world.output(ResultOf(cfg, maxIter, world).failures));
    }
    hide LoopEnd, FateOf, Trail, Collected, Synthesized, Captured, Assembled, FailureTag,
      RedirectsIn, FailuresIn, Calls, QuestionsIn, AnswerIn;
  }

  lemma TagSays(v: Verify, output: string)
    ensures FailureTag(v, output) ==
      "## VERIFICATION FAILED\n\nVerification command: " + v.command + "\nOutput:\n" + output + "\n\n---\n\n"
  {
  }
}
