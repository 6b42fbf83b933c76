/**
 * Dependency texts cut down to a budget: each gets an equal share, and what short
 * texts leave of theirs is shared among the long ones.  Both divisions round down.
 */
module TruncateDeps {
  import opened Wrappers
  import Decimal
  import Text

  const MIN_BUDGET: int := 4096

  function Total(deps: seq<string>): nat {
    if deps == [] then 0 else Total(deps[..|deps| - 1]) + |deps[|deps| - 1]|
  }

  /** What the short texts leave of their shares. */
  function Surplus(deps: seq<string>, share: nat): nat {
    if deps == [] then 0
    else Surplus(deps[..|deps| - 1], share) + if |deps[|deps| - 1]| <= share then share - |deps[|deps| - 1]| else 0
  }

  /** How many texts are longer than their share. */
  function LongCount(deps: seq<string>, share: nat): nat {
    if deps == [] then 0
    else LongCount(deps[..|deps| - 1], share) + if |deps[|deps| - 1]| <= share then 0 else 1
  }

  function Budget(requested: int): nat {
    if requested < MIN_BUDGET then MIN_BUDGET else requested
  }

  function Share(deps: seq<string>, requested: int): nat
    requires deps != []
  {
    Budget(requested) / |deps|
  }

  /** What a long text may keep. */
  function LongShare(deps: seq<string>, requested: int): (r: nat)
    requires deps != []
    ensures r >= Share(deps, requested)
  {
    var share := Share(deps, requested);
    if LongCount(deps, share) > 0 then share + Surplus(deps, share) / LongCount(deps, share) else share
  }

  /** A cut goes back to the last line break if that is in the second half. */
  function CutPoint(d: string, limit: nat): (c: nat)
    requires limit <= |d|
    ensures c <= limit && (limit > 0 ==> c > limit / 2)
    ensures c < limit ==> d[c] == '\n' && '\n' !in d[c + 1..limit]
  {
    if Text.LastIndex(d[..limit], '\n') > limit / 2 then Text.LastIndex(d[..limit], '\n') else limit
  }

  /** How much of a text's own characters remains. */
  function Kept(d: string, share: nat, long: nat): (k: nat)
    requires share <= long
    ensures k <= |d|
  {
    if |d| <= share || |d| <= long then |d| else CutPoint(d, long)
  }

  /** A cut text says how much is missing, measured from the limit. */
  function Shown(d: string, share: nat, long: nat): string
    requires share <= long
  {
    if |d| <= share || |d| <= long then d
    else d[..CutPoint(d, long)] + "\n\n[... truncated, " + Decimal.Formatted(|d| - long) + " chars omitted]"
  }

  method TotalLength(deps: seq<string>) returns (total: nat)
    ensures total == Total(deps)
  {
    total := 0;
    for i := 0 to |deps|
      invariant total == Total(deps[..i])
    {
      assert deps[..i + 1][..i] == deps[..i];
      total := total + |deps[i]|;
    }
    assert deps[..|deps|] == deps;
  }

  method CountShares(deps: seq<string>, perDep: nat) returns (surplus: nat, longCount: nat)
    ensures surplus == Surplus(deps, perDep) && longCount == LongCount(deps, perDep)
  {
    surplus, longCount := 0, 0;
    for i := 0 to |deps|
      invariant surplus == Surplus(deps[..i], perDep) && longCount == LongCount(deps[..i], perDep)
    {
      assert deps[..i + 1][..i] == deps[..i];
      if |deps[i]| <= perDep {
        surplus := surplus + perDep - |deps[i]|;
      } else {
        longCount := longCount + 1;
      }
    }
    assert deps[..|deps|] == deps;
  }

  method CutAll(deps: seq<string>, perDep: nat, longBudget: nat) returns (result: seq<string>)
    requires perDep <= longBudget
    ensures |result| == |deps| && forall i :: 0 <= i < |deps| ==> result[i] == Shown(deps[i], perDep, longBudget)
  {
    result := [];
    for i := 0 to |deps|
      invariant |result| == i
      invariant forall j :: 0 <= j < i ==> result[j] == Shown(deps[j], perDep, longBudget)
    {
      var d := deps[i];
      var limit := longBudget;
      if |d| <= perDep { limit := |d|; }
      if |d| > limit {
        var omitted := |d| - limit;
        var cutPoint := limit;
        var nl := Text.LastIndex(d[..cutPoint], '\n');
        if nl > cutPoint / 2 { cutPoint := nl; }
        result := result + [d[..cutPoint] + "\n\n[... truncated, " + Decimal.Formatted(omitted) + " chars omitted]"];
      } else {
        result := result + [d];
      }
    }
  }

  method Truncate(deps: seq<string>, requested: int) returns (result: seq<string>)
    ensures |result| == |deps|
    ensures Total(deps) <= 4096 || Total(deps) <= requested ==> result == deps
    ensures Total(deps) > Budget(requested) ==> deps != [] && forall i :: 0 <= i < |deps| ==>
      result[i] == Shown(deps[i], Share(deps, requested), LongShare(deps, requested))
  {
    hide Shown, Surplus, LongCount;
    if |deps| == 0 { return deps; }
    var budget := requested;
    if budget < MIN_BUDGET { budget := MIN_BUDGET; }
    var total := TotalLength(deps);
    if total <= budget { return deps; }
    var perDep := budget / |deps|;
    var surplus, longCount := CountShares(deps, perDep);
    var longBudget := perDep;
    if longCount > 0 {
      longBudget := perDep + surplus / longCount;
    }
    result := CutAll(deps, perDep, longBudget);
  }

  /* What is kept fits the budget. */

  /** The characters kept of all texts. */
  function KeptTotal(deps: seq<string>, share: nat, long: nat): nat
    requires share <= long
  {
    if deps == [] then 0
    else KeptTotal(deps[..|deps| - 1], share, long) + Kept(deps[|deps| - 1], share, long)
  }

  /** Shares add up: short texts and what they leave, long texts and their shares. */
  lemma {:induction false} SharesAddUp(deps: seq<string>, share: nat, long: nat)
    requires share <= long
    ensures KeptTotal(deps, share, long) + Surplus(deps, share) <=
      |deps| * share + LongCount(deps, share) * (long - share)
    ensures LongCount(deps, share) == 0 ==> Total(deps) <= |deps| * share
  {
    if deps == [] {
    } else {
      var before := deps[..|deps| - 1];
      SharesAddUp(before, share, long);
      assert |deps| * share == |before| * share + share;
      Distribute(LongCount(before, share), long - share);
    }
  }

  lemma RoundedDown(a: nat, n: nat)
    requires n > 0
    ensures n * (a / n) <= a
  {
  }

  /** When the texts exceed the budget, one of them exceeds its share. */
  lemma SomeTextIsLong(deps: seq<string>, requested: int)
    requires Total(deps) > Budget(requested)
    ensures deps != [] && LongCount(deps, Share(deps, requested)) > 0
  {
    ShareFits(deps, requested);
    hide Share, Budget, LongCount;
    SharesAddUp(deps, Share(deps, requested), Share(deps, requested));
  }

  lemma ShareFits(deps: seq<string>, requested: int)
    requires deps != []
    ensures |deps| * Share(deps, requested) <= Budget(requested)
  {
    hide Budget;
    RoundedDown(Budget(requested), |deps|);
  }

  lemma SurplusFits(deps: seq<string>, requested: int)
    requires deps != [] && LongCount(deps, Share(deps, requested)) > 0
    ensures
      var share := Share(deps, requested);
      LongCount(deps, share) * (LongShare(deps, requested) - share) <= Surplus(deps, share)
  {
    hide Budget, Share, Surplus, LongCount;
    var share := Share(deps, requested);
    RoundedDown(Surplus(deps, share), LongCount(deps, share));
  }

  /** In total, no more than the budget is kept of the texts, however the divisions round. */
  lemma KeptFitsBudget(deps: seq<string>, requested: int)
    requires Total(deps) > Budget(requested)
    ensures deps != []
    ensures KeptTotal(deps, Share(deps, requested), LongShare(deps, requested)) <=
      if requested < 4096 then 4096 else requested
  {
    assert Budget(requested) == if requested < 4096 then 4096 else requested;
    hide *;
    SomeTextIsLong(deps, requested);
    ShareFits(deps, requested);
    SurplusFits(deps, requested);
    SharesAddUp(deps, Share(deps, requested), LongShare(deps, requested));
  }

  /** What all texts together may keep: a short one all it has, a long one its share of the rest. */
  function Allowed(deps: seq<string>, share: nat, long: nat): nat {
    if deps == [] then 0
    else
      var d := deps[|deps| - 1];
      Allowed(deps[..|deps| - 1], share, long) + if |d| <= share then |d| else long
  }

  lemma {:induction false} AllowedAddsUp(deps: seq<string>, share: nat, long: nat)
    requires share <= long
    ensures Allowed(deps, share, long) + Surplus(deps, share) ==
      |deps| * share + LongCount(deps, share) * (long - share)
  {
    if deps != [] {
      var before := deps[..|deps| - 1];
      AllowedAddsUp(before, share, long);
      assert |deps| * share == |before| * share + share;
      Distribute(LongCount(before, share), long - share);
    }
  }

  lemma DivisionLosesLittle(a: nat, n: nat)
    requires n > 0
    ensures n * (a / n) > a - n
  {
  }

  lemma LittleIsLost(deps: seq<string>, requested: int)
    requires deps != [] && LongCount(deps, Share(deps, requested)) > 0
    ensures
      var share := Share(deps, requested);
      && |deps| * share > Budget(requested) - |deps|
      && LongCount(deps, share) * (LongShare(deps, requested) - share) > Surplus(deps, share) - LongCount(deps, share)
  {
    hide Budget, Surplus, LongCount;
    DivisionLosesLittle(Budget(requested), |deps|);
    var share := Share(deps, requested);
    hide Share;
    DivisionLosesLittle(Surplus(deps, share), LongCount(deps, share));
  }

  /**
   * What short texts leave is given to the long ones: together they may keep the whole
   * budget but for what the two divisions lose, less than one character for each text
   * and one for each long text.
   */
  lemma BudgetIsUsed(deps: seq<string>, requested: int)
    requires Total(deps) > Budget(requested)
    ensures deps != []
    ensures
      var share, long := Share(deps, requested), LongShare(deps, requested);
      Budget(requested) - |deps| - LongCount(deps, share) < Allowed(deps, share, long) <= Budget(requested)
  {
    hide *;
    SomeTextIsLong(deps, requested);
    ShareFits(deps, requested);
    SurplusFits(deps, requested);
    LittleIsLost(deps, requested);
    AllowedAddsUp(deps, Share(deps, requested), LongShare(deps, requested));
  }

  /**
   * A text that fits its share is left alone.  Of any other a prefix is kept, more
   * than half as long as the share, that ends at the share or before a line break.
   */
  lemma ShownKeeps(d: string, share: nat, long: nat)
    requires share <= long
    ensures |d| <= share || |d| <= long ==> Shown(d, share, long) == d && Kept(d, share, long) == |d|
    ensures |d| > long ==>
      var k := Kept(d, share, long);
      && k <= long && (long > 0 ==> k > long / 2) && (k < long ==> d[k] == '\n')
      && Shown(d, share, long) == d[..k] + "\n\n[... truncated, " + Decimal.Formatted(|d| - long) + " chars omitted]"
  {
  }

  /**
   * The number reported missing is right exactly if the limit has no line break
   * in its second half; otherwise it is too small.
   */
  lemma ReportIsRightExactly(d: string, share: nat, long: nat)
    requires share <= long < |d|
    ensures |d| - long <= |d| - Kept(d, share, long)
    ensures |d| - long == |d| - Kept(d, share, long) <==> forall j :: long / 2 < j < long ==> d[j] != '\n'
  {
    var kept := d[..long];
    var i := Text.LastIndex(kept, '\n');
    assert i >= 0 ==> d[i] == '\n';
    assert forall j :: i < j < long ==> d[j] == kept[j];
  }

  /** A line of 3000 characters and one of 2000. */
  function TwoLines(): string {
    seq(3000, i => 'x') + "\n" + seq(2000, i => 'x')
  }

  /** Cut to the least budget this text loses 2001 characters and is said to have lost 905. */
  lemma ReportIsTooSmall()
    ensures
      var deps := [TwoLines()];
      && Total(deps) > Budget(0) && Share(deps, 0) == LongShare(deps, 0) == 4096
      && Kept(deps[0], 4096, 4096) == 3000 && |deps[0]| == 5001
      && Shown(deps[0], 4096, 4096) ==
           deps[0][..3000] + "\n\n[... truncated, " + Decimal.Formatted(905) + " chars omitted]"
  {
    var d := TwoLines();
    var none: seq<string> := [];
    assert [d][..0] == none;
    assert Total([d]) == 5001 && Surplus([d], 4096) == 0;
    var kept := d[..4096];
    assert kept[3000] == '\n' && forall j :: 3000 < j < 4096 ==> kept[j] == 'x';
    assert Text.LastIndex(kept, '\n') == 3000;
  }
}
