/**
 * The history of a tool loop compacted to a token budget: the first two messages
 * and the most recent ones are kept, what lies between becomes one summary.
 */
module CompactHistory {
  import Decimal
  import Text

  datatype Role = System | User | Assistant | Tool

  datatype Call = Call(id: string, name: string, arguments: string)

  datatype Message = Message(role: Role, content: string, calls: seq<Call>)

  /** What the tool calls of a message are estimated to cost. */
  function CallCost(calls: seq<Call>): nat {
    if calls == [] then 0
    else
      var c := calls[|calls| - 1];
      CallCost(calls[..|calls| - 1]) + |c.arguments| / 4 + |c.id|
  }

  function ContentCost(m: Message): nat {
    |m.content| / 4 + 4
  }

  function Cost(m: Message): (c: nat)
    ensures c >= 4
  {
    ContentCost(m) + CallCost(m.calls)
  }

  function Tokens(msgs: seq<Message>): nat {
    if msgs == [] then 0 else Tokens(msgs[..|msgs| - 1]) + Cost(msgs[|msgs| - 1])
  }

  lemma {:induction false} TokensAppend(a: seq<Message>, b: seq<Message>)
    ensures Tokens(a + b) == Tokens(a) + Tokens(b)
  {
    if b == [] {
      assert a + b == a;
    } else {
      TokensAppend(a, b[..|b| - 1]);
      assert (a + b)[..|a + b| - 1] == a + b[..|b| - 1];
    }
  }

  lemma TokensFrom(msgs: seq<Message>, i: nat)
    requires i < |msgs|
    ensures Tokens(msgs[i..]) == Cost(msgs[i]) + Tokens(msgs[i + 1..])
  {
    assert msgs[i..] == [msgs[i]] + msgs[i + 1..];
    TokensAppend([msgs[i]], msgs[i + 1..]);
    assert [msgs[i]][..0] == [];
  }

  method MessageCost(m: Message) returns (cost: nat)
    ensures cost == Cost(m)
  {
    cost := |m.content| / 4 + 4;
    for i := 0 to |m.calls|
      invariant cost == ContentCost(m) + CallCost(m.calls[..i])
    {
      assert m.calls[..i + 1][..i] == m.calls[..i];
      cost := cost + |m.calls[i].arguments| / 4;
      cost := cost + |m.calls[i].id|;
    }
    assert m.calls[..|m.calls|] == m.calls;
  }

  method EstimateTokens(msgs: seq<Message>) returns (total: nat)
    ensures total == Tokens(msgs)
  {
    total := 0;
    for i := 0 to |msgs|
      invariant total == Tokens(msgs[..i])
    {
      assert msgs[..i + 1][..i] == msgs[..i];
      var cost := MessageCost(msgs[i]);
      total := total + cost;
    }
    assert msgs[..|msgs|] == msgs;
  }

  /* The summary. */

  /** How many of the messages are the model's own. */
  function Iterations(msgs: seq<Message>): nat {
    if msgs == [] then 0
    else Iterations(msgs[..|msgs| - 1]) + if msgs[|msgs| - 1].role.Assistant? then 1 else 0
  }

  function CallNames(calls: seq<Call>): (r: seq<string>)
    ensures |r| == |calls| && forall i :: 0 <= i < |calls| ==> r[i] == calls[i].name
  {
    seq(|calls|, i requires 0 <= i < |calls| => calls[i].name)
  }

  function ToolNames(msgs: seq<Message>): seq<string> {
    if msgs == [] then [] else ToolNames(msgs[..|msgs| - 1]) + CallNames(msgs[|msgs| - 1].calls)
  }

  /** Every name once, where it first occurs. */
  function Deduped(names: seq<string>): (r: seq<string>)
    ensures forall n :: n in r <==> n in names
    ensures forall i, j :: 0 <= i < j < |r| ==> r[i] != r[j]
  {
    if names == [] then []
    else
      var before, last := names[..|names| - 1], names[|names| - 1];
      assert names == before + [last];
      if last in before then Deduped(before) else Deduped(before) + [last]
  }

  method DedupStrings(names: seq<string>) returns (out: seq<string>)
    ensures out == Deduped(names)
  {
    var seen: set<string> := {};
    out := [];
    for i := 0 to |names|
      invariant out == Deduped(names[..i]) && forall n :: n in seen <==> n in names[..i]
    {
      assert names[..i + 1][..i] == names[..i];
      assert names[..i + 1] == names[..i] + [names[i]];
      if names[i] !in seen {
        seen := seen + {names[i]};
        out := out + [names[i]];
      }
    }
    assert names[..|names|] == names;
  }

  function SummaryText(iterations: nat, names: seq<string>): string {
    "[" + Decimal.Formatted(iterations) + " earlier iteration(s)" +
    (if names == [] then "" else " using: " + Text.Listed(names)) +
    " \U{2014} history compacted to stay within context budget]"
  }

  function Summary(dropped: seq<Message>): Message {
    Message(User, SummaryText(Iterations(dropped), Deduped(ToolNames(dropped))), [])
  }

  method Summarize(dropped: seq<Message>) returns (m: Message)
    ensures m == Summary(dropped)
  {
    var toolNames: seq<string> := [];
    var droppedIterations := 0;
    for i := 0 to |dropped|
      invariant droppedIterations == Iterations(dropped[..i]) && toolNames == ToolNames(dropped[..i])
    {
      assert dropped[..i + 1][..i] == dropped[..i];
      if dropped[i].role.Assistant? {
        droppedIterations := droppedIterations + 1;
      }
      for j := 0 to |dropped[i].calls|
        invariant toolNames == ToolNames(dropped[..i]) + CallNames(dropped[i].calls)[..j]
      {
        toolNames := toolNames + [dropped[i].calls[j].name];
      }
      assert CallNames(dropped[i].calls)[..|dropped[i].calls|] == CallNames(dropped[i].calls);
    }
    assert dropped[..|dropped|] == dropped;
    toolNames := DedupStrings(toolNames);
    m := Message(User, SummaryText(droppedIterations, toolNames), []);
  }

  /* What these say. */

  /** The characters of contents and arguments, and how many texts they are in. */
  function Chars(msgs: seq<Message>): nat {
    if msgs == [] then 0
    else Chars(msgs[..|msgs| - 1]) + |msgs[|msgs| - 1].content| + ArgumentChars(msgs[|msgs| - 1].calls)
  }

  function ArgumentChars(calls: seq<Call>): nat {
    if calls == [] then 0 else ArgumentChars(calls[..|calls| - 1]) + |calls[|calls| - 1].arguments|
  }

  function IDChars(calls: seq<Call>): nat {
    if calls == [] then 0 else IDChars(calls[..|calls| - 1]) + |calls[|calls| - 1].id|
  }

  /** What every message and every ID costs besides its text. */
  function Overhead(msgs: seq<Message>): nat {
    if msgs == [] then 0 else Overhead(msgs[..|msgs| - 1]) + 4 + IDChars(msgs[|msgs| - 1].calls)
  }

  function Texts(msgs: seq<Message>): nat {
    if msgs == [] then 0 else Texts(msgs[..|msgs| - 1]) + 1 + |msgs[|msgs| - 1].calls|
  }

  lemma {:induction false} CallEstimate(calls: seq<Call>)
    ensures ArgumentChars(calls) - 3 * |calls| <= 4 * (CallCost(calls) - IDChars(calls)) <= ArgumentChars(calls)
  {
    if calls != [] { CallEstimate(calls[..|calls| - 1]); }
  }

  /** The estimate is the overhead and a quarter of all characters, short by less than one for every text. */
  lemma {:induction false} EstimateIsAQuarter(msgs: seq<Message>)
    ensures Chars(msgs) - 3 * Texts(msgs) <= 4 * (Tokens(msgs) - Overhead(msgs)) <= Chars(msgs)
  {
    if msgs != [] {
      EstimateIsAQuarter(msgs[..|msgs| - 1]);
      CallEstimate(msgs[|msgs| - 1].calls);
    }
  }

  /** Of two names in the list without repetitions the first was there before the second ever was. */
  lemma {:induction false} DedupedInOrder(names: seq<string>, i: nat, j: nat)
    requires i < j < |Deduped(names)|
    ensures exists p :: 0 <= p < |names| && names[p] == Deduped(names)[i] && Deduped(names)[j] !in names[..p + 1]
  {
    var k := |names| - 1;
    var before := names[..k];
    assert names == before + [names[k]];
    if j < |Deduped(before)| {
      DedupedInOrder(before, i, j);
      var p :| 0 <= p < |before| && before[p] == Deduped(before)[i] && Deduped(before)[j] !in before[..p + 1];
      assert before[..p + 1] == names[..p + 1];
    } else {
      assert Deduped(before)[i] in Deduped(before);
      var p :| 0 <= p < |before| && before[p] == Deduped(before)[i];
      assert names[..p + 1] == before[..p + 1];
      assert forall n :: n in before[..p + 1] ==> n in before;
    }
  }

  lemma {:induction false} IterationsAreCounted(msgs: seq<Message>)
    ensures Iterations(msgs) == |set i | 0 <= i < |msgs| && msgs[i].role.Assistant?|
  {
    if msgs != [] {
      var k := |msgs| - 1;
      IterationsAreCounted(msgs[..k]);
      assert Iterations(msgs) == Iterations(msgs[..k]) + if msgs[k].role.Assistant? then 1 else 0;
      hide Iterations;
      var before := set i | 0 <= i < |msgs[..k]| && msgs[..k][i].role.Assistant?;
      var all := set i | 0 <= i < |msgs| && msgs[i].role.Assistant?;
      assert k !in before && all == before + if msgs[k].role.Assistant? then {k} else {};
    }
  }

  lemma {:induction false} ToolNamesAreCalled(msgs: seq<Message>)
    ensures forall n :: n in ToolNames(msgs) <==>
      exists i, j :: 0 <= i < |msgs| && 0 <= j < |msgs[i].calls| && msgs[i].calls[j].name == n
  {
    if msgs != [] {
      var k := |msgs| - 1;
      ToolNamesAreCalled(msgs[..k]);
      forall n
        ensures n in ToolNames(msgs) <==>
          exists i, j :: 0 <= i < |msgs| && 0 <= j < |msgs[i].calls| && msgs[i].calls[j].name == n
      {
        if i, j :| 0 <= i < |msgs| && 0 <= j < |msgs[i].calls| && msgs[i].calls[j].name == n {
          if i < k {
            assert msgs[..k][i].calls[j].name == n;
          } else {
            assert CallNames(msgs[k].calls)[j] == n;
          }
        }
        if n in ToolNames(msgs[..k]) {
          var i, j :| 0 <= i < k && 0 <= j < |msgs[..k][i].calls| && msgs[..k][i].calls[j].name == n;
          assert msgs[i].calls[j].name == n;
        }
      }
    }
  }

  /**
   * The summary is a message of the user without calls: it gives the number of the model's
   * own messages among those that were dropped, and every tool they called, once.
   */
  lemma SummaryTells(dropped: seq<Message>) returns (names: seq<string>)
    ensures
      var n := |set i | 0 <= i < |dropped| && dropped[i].role.Assistant?|;
      Summary(dropped) == Message(
        User,
        "[" + Decimal.Formatted(n) + " earlier iteration(s)"
        + (if |names| == 0 then "" else " using: " + Text.Listed(names))
        + " \U{2014} history compacted to stay within context budget]",
        [])
    ensures forall i, j :: 0 <= i < j < |names| ==> names[i] != names[j]
    ensures forall n :: n in names <==>
      exists i, j :: 0 <= i < |dropped| && 0 <= j < |dropped[i].calls| && dropped[i].calls[j].name == n
  {
    names := Deduped(ToolNames(dropped));
    IterationsAreCounted(dropped);
    ToolNamesAreCalled(dropped);
  }

  /* Compacting. */

  /** What is left of the budget for the messages after the first two; their calls are not counted. */
  function Remaining(msgs: seq<Message>, budget: int): int
    requires |msgs| > 2
  {
    budget - ContentCost(msgs[0]) - ContentCost(msgs[1])
  }

  /** The messages from `k` on are the longest tail that fits. */
  predicate LongestTail(msgs: seq<Message>, budget: int, k: nat)
    requires |msgs| > 2
  {
    && 2 <= k <= |msgs|
    && (k < |msgs| ==> Tokens(msgs[k..]) <= Remaining(msgs, budget))
    && (forall i :: 2 <= i < k ==> Tokens(msgs[i..]) > Remaining(msgs, budget))
  }

  method TailThatFits(msgs: seq<Message>, budget: int) returns (keepFrom: nat)
    requires |msgs| > 2
    ensures LongestTail(msgs, budget, keepFrom)
  {
    var remaining := budget - ContentCost(msgs[0]) - ContentCost(msgs[1]);
    keepFrom := |msgs|;
    var i := |msgs| - 1;
    while i >= 2
      invariant 1 <= i < |msgs| && keepFrom == i + 1
      invariant remaining == Remaining(msgs, budget) - Tokens(msgs[i + 1..])
      invariant keepFrom < |msgs| ==> remaining >= 0
    {
      var cost := MessageCost(msgs[i]);
      TokensFrom(msgs, i);
      if remaining - cost < 0 {
        LongerTailsCostMore(msgs, i);
        break;
      }
      remaining := remaining - cost;
      keepFrom := i;
      i := i - 1;
    }
  }

  lemma {:induction false} LongerTailsCostMore(msgs: seq<Message>, i: nat)
    requires i < |msgs|
    ensures forall j :: 0 <= j <= i ==> Tokens(msgs[j..]) >= Tokens(msgs[i..])
  {
    if i == 0 {
    } else {
      TokensFrom(msgs, i - 1);
      LongerTailsCostMore(msgs, i - 1);
    }
  }

  /** The messages between the first two and the tail give way to their summary. */
  function Compacted(msgs: seq<Message>, k: nat): seq<Message>
    requires 2 <= k <= |msgs|
  {
    if k == 2 then msgs else msgs[..2] + [Summary(msgs[2..k])] + msgs[k..]
  }

  method CompactToolHistory(msgs: seq<Message>, budget: int) returns (r: seq<Message>)
    ensures |msgs| <= 2 ==> r == msgs
    ensures |msgs| > 2 ==> exists k: nat :: LongestTail(msgs, budget, k) && r == Compacted(msgs, k)
  {
    if |msgs| <= 2 { return msgs; }
    var keepFrom := TailThatFits(msgs, budget);
    if keepFrom <= 2 { return msgs; }
    var summary := Summarize(msgs[2..keepFrom]);
    return [msgs[0], msgs[1]] + [summary] + msgs[keepFrom..];
  }

  /* What that is worth. */

  /** There is only one longest tail, so the result is determined. */
  lemma TailIsUnique(msgs: seq<Message>, budget: int, j: nat, k: nat)
    requires |msgs| > 2 && LongestTail(msgs, budget, j) && LongestTail(msgs, budget, k)
    ensures j == k
  {
  }

  lemma NeverLonger(msgs: seq<Message>, k: nat)
    requires 2 <= k <= |msgs|
    ensures |Compacted(msgs, k)| <= |msgs|
    ensures Compacted(msgs, k)[..2] == msgs[..2]
    ensures msgs[k..] <= Compacted(msgs, k)[|Compacted(msgs, k)| - |msgs[k..]|..]
  {
  }

  /**
   * A compacted history costs no more than the budget or its first two messages,
   * whichever is more, and the summary; the calls of the first two come on top,
   * because they were never counted.
   */
  lemma CostBound(msgs: seq<Message>, budget: int, k: nat)
    requires |msgs| > 2 && LongestTail(msgs, budget, k)
    ensures
      var firstTwo := ContentCost(msgs[0]) + ContentCost(msgs[1]);
      Tokens(Compacted(msgs, k)) <=
        (if budget > firstTwo then budget else firstTwo) +
        CallCost(msgs[0].calls) + CallCost(msgs[1].calls) +
        (if k == 2 then 0 else Cost(Summary(msgs[2..k])))
  {
    hide Cost, CallCost, ContentCost, Summary;
    CostOfPair(msgs);
    if k == 2 {
      assert msgs == msgs[..2] + msgs[2..];
      TokensAppend(msgs[..2], msgs[2..]);
    } else {
      var s := Summary(msgs[2..k]);
      TokensAppend(msgs[..2] + [s], msgs[k..]);
      assert (msgs[..2] + [s])[..2] == msgs[..2];
    }
  }

  lemma CostOfPair(msgs: seq<Message>)
    requires |msgs| >= 2
    ensures Tokens(msgs[..2]) ==
      ContentCost(msgs[0]) + CallCost(msgs[0].calls) + ContentCost(msgs[1]) + CallCost(msgs[1].calls)
  {
    TokensAppend(msgs[..1], [msgs[1]]);
    assert msgs[..2] == msgs[..1] + [msgs[1]];
    assert msgs[..1][..0] == [] && [msgs[1]][..0] == [];
    assert Tokens(msgs[..1]) == Cost(msgs[0]) && Tokens([msgs[1]]) == Cost(msgs[1]);
  }
}
