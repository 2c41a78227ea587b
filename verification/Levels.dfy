/** Water-filling: the level that a budget can lift every validator to, and why it is the fairest. */
module Levels {
  import opened Base
  import opened Sums

  /** What the pool stakes to a validator so that its total stake comes up to `level`. */
  function StakeFromPool(external: nat, level: nat, cap: nat): (n: nat)
    ensures n <= cap
  {
    Min(Max(level - external, 0), cap)
  }

  /** What is still missing at `level`, over all validators. */
  function Bill(externals: seq<nat>, pools: seq<nat>, cap: nat, level: nat): nat {
    if externals == [] || pools == [] then 0
    else Max(StakeFromPool(externals[0], level, cap) - pools[0], 0) + Bill(externals[1..], pools[1..], cap, level)
  }

  /** A higher level costs more, but at most one lamport per validator and unit of level. */
  lemma {:induction false} BillSteps(externals: seq<nat>, pools: seq<nat>, cap: nat, level: nat)
    ensures Bill(externals, pools, cap, level) <= Bill(externals, pools, cap, level + 1)
            <= Bill(externals, pools, cap, level) + |externals|
  {
    if externals != [] && pools != [] {
      BillSteps(externals[1..], pools[1..], cap, level);
    }
  }

  lemma {:induction false} BillMono(externals: seq<nat>, pools: seq<nat>, cap: nat, low: nat, high: nat)
    requires low <= high
    ensures Bill(externals, pools, cap, low) <= Bill(externals, pools, cap, high)
    decreases high - low
  {
    if low < high {
      BillMono(externals, pools, cap, low, high - 1);
      BillSteps(externals, pools, cap, high - 1);
    }
  }

  lemma {:induction false} NoLevelIsFree(externals: seq<nat>, pools: seq<nat>, cap: nat)
    ensures Bill(externals, pools, cap, 0) == 0
  {
    if externals != [] && pools != [] {
      NoLevelIsFree(externals[1..], pools[1..], cap);
    }
  }

  /** The greatest level up to `maxLevel` whose bill fits the budget, by trying every one. */
  function GreatestLevel(externals: seq<nat>, pools: seq<nat>, cap: nat, budget: int, maxLevel: nat): (level: nat)
    ensures level <= maxLevel
    ensures level > 0 ==> Bill(externals, pools, cap, level) <= budget
    ensures forall l :: level < l <= maxLevel ==> Bill(externals, pools, cap, l) > budget
    decreases maxLevel
  {
    if maxLevel == 0 || Bill(externals, pools, cap, maxLevel) <= budget then maxLevel
    else GreatestLevel(externals, pools, cap, budget, maxLevel - 1)
  }

  /** The binary search finds that level. */
  method ComputeStakeLevel(externals: seq<nat>, pools: seq<nat>, cap: nat, budget: int, maxLevel: int)
    returns (level: nat)
    ensures level == GreatestLevel(externals, pools, cap, budget, Max(maxLevel, 0))
    ensures budget >= 0 ==> Bill(externals, pools, cap, level) <= budget
  {
    var low: nat, high: nat := 0, Max(maxLevel, 0);
    while low < high
      invariant low <= high <= Max(maxLevel, 0)
      invariant low > 0 ==> Bill(externals, pools, cap, low) <= budget
      invariant forall l :: high < l <= Max(maxLevel, 0) ==> Bill(externals, pools, cap, l) > budget
      decreases high - low
    {
      var middle := (low + high + 1) / 2;
      if Bill(externals, pools, cap, middle) <= budget {
        low := middle;
      } else {
        forall l | middle <= l
          ensures Bill(externals, pools, cap, l) > budget
        {
          BillMono(externals, pools, cap, middle, l);
        }
        high := middle - 1;
      }
    }
    NoLevelIsFree(externals, pools, cap);
    return low;
  }

  // ---------------------------------------------------------------------------------------
  // Fairness of the target stakes
  // ---------------------------------------------------------------------------------------

  function MaxOf(s: seq<nat>): (m: nat)
    requires s != []
    ensures m in s && forall i :: 0 <= i < |s| ==> s[i] <= m
  {
    if |s| == 1 then s[0] else Max(s[0], MaxOf(s[1..]))
  }

  function MinOf(s: seq<nat>): (m: nat)
    requires s != []
    ensures m in s && forall i :: 0 <= i < |s| ==> m <= s[i]
  {
    if |s| == 1 then s[0] else Min(s[0], MinOf(s[1..]))
  }

  function Zeros(n: nat): seq<nat> {
    seq(n, _ => 0)
  }

  /** The level every validator is to be lifted to, and what the pool stakes to each. */
  function TargetLevel(externals: seq<nat>, cap: nat, budget: nat): nat
    requires externals != []
  {
    GreatestLevel(externals, Zeros(|externals|), cap, budget, MaxOf(externals) + cap)
  }

  function StakesAt(externals: seq<nat>, cap: nat, level: nat): (r: seq<nat>)
    ensures |r| == |externals|
  {
    seq(|externals|, i requires 0 <= i < |externals| => StakeFromPool(externals[i], level, cap))
  }

  function Totals(externals: seq<nat>, stakes: seq<nat>): (r: seq<nat>)
    requires |stakes| == |externals|
    ensures |r| == |externals|
  {
    seq(|externals|, i requires 0 <= i < |externals| => externals[i] + stakes[i])
  }

  /** An assignment the pool could make: one stake per validator, none above the cap. */
  ghost predicate Feasible(externals: seq<nat>, cap: nat, stakes: seq<nat>) {
    |stakes| == |externals| && forall i :: 0 <= i < |stakes| ==> stakes[i] <= cap
  }

  lemma {:induction false} BillIsSum(externals: seq<nat>, cap: nat, level: nat)
    ensures Bill(externals, Zeros(|externals|), cap, level) == Sum(StakesAt(externals, cap, level))
  {
    if externals != [] {
      BillIsSum(externals[1..], cap, level);
      assert Zeros(|externals|)[1..] == Zeros(|externals| - 1);
      assert StakesAt(externals, cap, level)[1..] == StakesAt(externals[1..], cap, level);
    }
  }

  /** Lifting everyone to h costs at least the bill of h. */
  lemma LiftingCosts(externals: seq<nat>, cap: nat, stakes: seq<nat>, h: nat)
    requires Feasible(externals, cap, stakes)
    requires forall i :: 0 <= i < |externals| ==> h <= externals[i] + stakes[i]
    ensures Bill(externals, Zeros(|externals|), cap, h) <= Sum(stakes)
  {
    BillIsSum(externals, cap, h);
    SumMono(StakesAt(externals, cap, h), stakes);
  }

  /** No assignment within the cap and the budget gives a larger minimum total stake. */
  lemma TargetsAreMaxMin(externals: seq<nat>, cap: nat, budget: nat, stakes: seq<nat>)
    requires externals != [] && Feasible(externals, cap, stakes) && Sum(stakes) <= budget
    ensures MinOf(Totals(externals, stakes))
            <= MinOf(Totals(externals, StakesAt(externals, cap, TargetLevel(externals, cap, budget))))
  {
    var level := TargetLevel(externals, cap, budget);
    var targets := StakesAt(externals, cap, level);
    var h := MinOf(Totals(externals, stakes));
    assert forall i :: 0 <= i < |externals| ==> Totals(externals, stakes)[i] == externals[i] + stakes[i];
    LiftingCosts(externals, cap, stakes, h);
    forall i | 0 <= i < |externals|
      ensures h <= externals[i] + targets[i]
    {
      assert externals[i] <= MaxOf(externals);
    }
    var m := MinOf(Totals(externals, targets));
    assert m in Totals(externals, targets);
  }

  /** A better-off validator got nothing, or the worse-off one is at its cap. */
  lemma NothingToExchange(externals: seq<nat>, cap: nat, level: nat, i: nat, j: nat)
    requires i < |externals| && j < |externals|
    requires var t := StakesAt(externals, cap, level); externals[i] + t[i] > externals[j] + t[j]
    ensures var t := StakesAt(externals, cap, level); t[i] == 0 || t[j] == cap
  {
  }

  /** The budget is used up to less than a lamport per validator, unless every validator is at its cap. */
  lemma BudgetIsUsed(externals: seq<nat>, cap: nat, budget: nat)
    requires externals != []
    ensures var t := StakesAt(externals, cap, TargetLevel(externals, cap, budget));
            && Sum(t) <= budget
            && (budget < Sum(t) + |externals| || forall i :: 0 <= i < |t| ==> t[i] == cap)
  {
    var level := TargetLevel(externals, cap, budget);
    var zeros := Zeros(|externals|);
    BillIsSum(externals, cap, level);
    NoLevelIsFree(externals, zeros, cap);
    BillSteps(externals, zeros, cap, level);
    if level == MaxOf(externals) + cap {
      forall i | 0 <= i < |externals|
        ensures StakesAt(externals, cap, level)[i] == cap
      {
        assert externals[i] <= MaxOf(externals);
      }
    } else {
      assert Bill(externals, zeros, cap, level + 1) > budget;
    }
  }

  /** How far the totals stay below h, summed over all validators. */
  function Shortfall(externals: seq<nat>, stakes: seq<nat>, h: nat): nat
    requires |stakes| == |externals|
  {
    if externals == [] then 0
    else SatSub(h, externals[0] + stakes[0]) + Shortfall(externals[1..], stakes[1..], h)
  }

  /** Up to the level, each target leaves no more missing than anything within the cap could. */
  lemma {:induction false} ShortfallBelow(externals: seq<nat>, cap: nat, level: nat, stakes: seq<nat>, h: nat)
    requires Feasible(externals, cap, stakes) && h <= level
    ensures Shortfall(externals, StakesAt(externals, cap, level), h) <= Shortfall(externals, stakes, h)
  {
    if externals != [] {
      ShortfallBelow(externals[1..], cap, level, stakes[1..], h);
      assert StakesAt(externals, cap, level)[1..] == StakesAt(externals[1..], cap, level);
    }
  }

  /** Above the level, every lamport of the targets counts, and none can count more than once. */
  lemma {:induction false} ShortfallAbove(externals: seq<nat>, cap: nat, level: nat, stakes: seq<nat>, h: nat)
    requires Feasible(externals, cap, stakes) && level <= h
    ensures Shortfall(externals, StakesAt(externals, cap, level), h) + Sum(StakesAt(externals, cap, level))
            <= Shortfall(externals, stakes, h) + Sum(stakes)
  {
    if externals != [] {
      ShortfallAbove(externals[1..], cap, level, stakes[1..], h);
      assert StakesAt(externals, cap, level)[1..] == StakesAt(externals[1..], cap, level);
    }
  }

  /**
   * The targets are as even as can be: measured at any height, no assignment within the cap that
   * hands out no more lamports leaves less missing.
   */
  lemma TargetsAreFairest(externals: seq<nat>, cap: nat, level: nat, stakes: seq<nat>, h: nat)
    requires Feasible(externals, cap, stakes) && Sum(stakes) <= Sum(StakesAt(externals, cap, level))
    ensures Shortfall(externals, StakesAt(externals, cap, level), h) <= Shortfall(externals, stakes, h)
  {
    if h <= level {
      ShortfallBelow(externals, cap, level, stakes, h);
    } else {
      ShortfallAbove(externals, cap, level, stakes, h);
    }
  }
}
