/** Everything the rebalancing plan contains, and nothing else: which validators move, and how far. */
module PlanComplete {
  import opened Base
  import opened Sums
  import opened Seqs
  import opened World
  import opened Levels
  import opened Sorting
  import opened Planner

  // ---------------------------------------------------------------------------------------
  // What the plan is to be
  // ---------------------------------------------------------------------------------------

  /** What a validator votes with and did not get from this pool. */
  ghost function Elsewhere(e: ValidatorStakeInfo, activated: map<Pubkey, nat>): nat {
    Max((if e.vote in activated then activated[e.vote] else 0) - e.active, 0)
  }

  /** What the pool stakes to a validator to bring its total up to a level, within the cap. */
  ghost function At(e: ValidatorStakeInfo, activated: map<Pubkey, nat>, cap: nat, level: nat): nat {
    Min(Max(level - Elsewhere(e, activated), 0), cap)
  }

  /** What the planner is given. */
  datatype Request = Request(
    validators: seq<ValidatorStakeInfo>, activated: map<Pubkey, nat>, distributable: nat, cap: nat, usable: nat,
    rent: nat)

  /** The outline of a plan: the validators that can be touched, their level, those to raise now, and how high. */
  datatype Outline = Outline(rows: seq<ValidatorStakeInfo>, level: nat, chosen: seq<nat>, reach: nat)

  ghost function Targets(t: Request, rows: seq<ValidatorStakeInfo>, level: nat): (r: seq<nat>)
    ensures |r| == |rows|
  {
    seq(|rows|, k requires 0 <= k < |rows| => At(rows[k], t.activated, t.cap, level))
  }

  ghost function Actives(rows: seq<ValidatorStakeInfo>): (r: seq<nat>)
    ensures |r| == |rows|
  {
    seq(|rows|, k requires 0 <= k < |rows| => rows[k].active)
  }

  /** What the given rows still miss at a level. */
  ghost function Gaps(t: Request, rows: seq<ValidatorStakeInfo>, indices: seq<nat>, level: nat): (r: seq<nat>)
    requires Below(indices, |rows|)
    ensures |r| == |indices|
  {
    seq(|indices|, k requires 0 <= k < |indices| =>
      Max(At(rows[indices[k]], t.activated, t.cap, level) - rows[indices[k]].active, 0))
  }

  /** What is left for the rows once everything that cannot be touched is taken off. */
  ghost function Remaining(t: Request, rows: seq<ValidatorStakeInfo>): nat {
    Max(t.distributable - (Sum(Staked(t.validators)) - Sum(Actives(rows))), 0)
  }

  /** The rows are the active validators without stake in transit, and the level is the highest the pool can fill. */
  ghost predicate Levelling(t: Request, o: Outline) {
    && (forall e :: e in o.rows <==> e in t.validators && e.status == Active && e.transient == 0)
    && Sum(Targets(t, o.rows, o.level)) <= Remaining(t, o.rows)
    && (|| (forall k :: 0 <= k < |o.rows| ==> At(o.rows[k], t.activated, t.cap, o.level) == t.cap)
        || Remaining(t, o.rows) < Sum(Targets(t, o.rows, o.level + 1)))
  }

  ghost predicate Wants(t: Request, o: Outline, k: nat) {
    k < |o.rows| && o.rows[k].active < At(o.rows[k], t.activated, t.cap, o.level)
  }

  /** As many of the rows below their target as the reserve can pay a rent for, the least staked ones first. */
  ghost predicate Choice(t: Request, o: Outline) {
    && NoRepeats(o.chosen) && (forall k :: k in o.chosen ==> Wants(t, o, k))
    && |o.chosen| * t.rent <= t.usable
    && (forall j: nat :: Wants(t, o, j) && j !in o.chosen ==>
          && t.usable < (|o.chosen| + 1) * t.rent
          && forall k :: k in o.chosen ==>
               Elsewhere(o.rows[k], t.activated) + o.rows[k].active
               <= Elsewhere(o.rows[j], t.activated) + o.rows[j].active)
  }

  /** The chosen ones are raised as high as the reserve can pay, with one rent each, and at most to the level. */
  ghost predicate Reaching(t: Request, o: Outline)
    requires Below(o.chosen, |o.rows|)
  {
    && o.reach <= o.level
    && |o.chosen| * t.rent + Sum(Gaps(t, o.rows, o.chosen, o.reach)) <= t.usable
    && (o.reach == o.level || t.usable < |o.chosen| * t.rent + Sum(Gaps(t, o.rows, o.chosen, o.reach + 1)))
  }

  /**
   * Row k moves by so many lamports: down to its target, or to what its account has to keep, or up to the
   * level that is reached, and never by less than the minimum.
   */
  ghost predicate Shifts(t: Request, o: Outline, k: nat, lamports: int) {
    && k < |o.rows|
    && var e := o.rows[k];
       var target := At(e, t.activated, t.cap, o.level);
       || (target < e.active && lamports == Max(target, t.rent + MINIMUM_CHANGE) - e.active
           && MINIMUM_CHANGE <= -lamports)
       || (k in o.chosen && lamports == At(e, t.activated, t.cap, o.reach) - e.active && MINIMUM_CHANGE <= lamports)
  }

  /** The plan has exactly the moves of the outline. */
  ghost predicate Contains(t: Request, o: Outline, plan: seq<StakeChange>) {
    forall vote, lamports ::
      StakeChange(vote, lamports) in plan <==> exists k: nat :: Shifts(t, o, k, lamports) && o.rows[k].vote == vote
  }

  // ---------------------------------------------------------------------------------------
  // The moves on a board
  // ---------------------------------------------------------------------------------------

  lemma {:induction false} DecreaseIff(b: Board, n: nat, i: nat, lamports: int)
    requires b.Valid() && n <= |b.validators|
    ensures Move(i, lamports) in Decreases(b, n)
            <==> i < n && b.validators[i].active > b.Target(i) && lamports == -b.Surplus(i)
                 && b.Surplus(i) >= MINIMUM_CHANGE
  {
    if n > 0 {
      DecreaseIff(b, n - 1, i, lamports);
    }
  }

  lemma {:induction false} IncreaseIff(b: Board, indices: seq<nat>, reach: nat, i: nat, lamports: int)
    requires b.Valid() && Below(indices, |b.validators|)
    ensures Move(i, lamports) in Increases(b, indices, reach)
            <==> i in indices && lamports == b.Missing(i, reach) && lamports >= MINIMUM_CHANGE
    decreases |indices|
  {
    if indices != [] {
      var last := |indices| - 1;
      IncreaseIff(b, indices[..last], reach, i, lamports);
      assert indices == indices[..last] + [indices[last]];
    }
  }

  lemma ChangeIff(b: Board, moves: seq<Move>, vote: Pubkey, lamports: int)
    requires InBounds(b, moves)
    ensures StakeChange(vote, lamports) in Changes(b, moves)
            <==> exists i: nat :: i < |b.validators| && Move(i, lamports) in moves && b.validators[i].vote == vote
  {
    var changes := Changes(b, moves);
    if StakeChange(vote, lamports) in changes {
      var k :| 0 <= k < |changes| && changes[k] == StakeChange(vote, lamports);
      assert moves[k] == Move(moves[k].index, lamports);
      assert Move(moves[k].index, lamports) in moves;
    }
    if i: nat :| i < |b.validators| && Move(i, lamports) in moves && b.validators[i].vote == vote {
      var k :| 0 <= k < |moves| && moves[k] == Move(i, lamports);
      assert changes[k] == StakeChange(vote, lamports);
    }
  }

  // ---------------------------------------------------------------------------------------
  // The board of a request
  // ---------------------------------------------------------------------------------------

  ghost predicate OnBoard(t: Request, rows: seq<ValidatorStakeInfo>, b: Board) {
    && b.Valid() && b.validators == rows && b.cap == t.cap && b.rent == t.rent
    && forall k :: 0 <= k < |rows| ==> b.externals[k] == Elsewhere(rows[k], t.activated)
  }

  /** The bill of a level, validator by validator. */
  ghost function Shares(externals: seq<nat>, pools: seq<nat>, cap: nat, level: nat): (r: seq<nat>)
    requires |externals| == |pools|
    ensures |r| == |externals|
  {
    seq(|externals|, k requires 0 <= k < |externals| => Max(StakeFromPool(externals[k], level, cap) - pools[k], 0))
  }

  lemma {:induction false} BillIsShares(externals: seq<nat>, pools: seq<nat>, cap: nat, level: nat)
    requires |externals| == |pools|
    ensures Bill(externals, pools, cap, level) == Sum(Shares(externals, pools, cap, level))
  {
    if externals != [] {
      BillIsShares(externals[1..], pools[1..], cap, level);
      assert Shares(externals, pools, cap, level)[1..] == Shares(externals[1..], pools[1..], cap, level);
    }
  }

  lemma BillIsGaps(t: Request, rows: seq<ValidatorStakeInfo>, b: Board, indices: seq<nat>, level: nat)
    requires OnBoard(t, rows, b) && Below(indices, |rows|)
    ensures Bill(b.ExternalsOf(indices), b.PoolsOf(indices), b.cap, level) == Sum(Gaps(t, rows, indices, level))
  {
    BillIsShares(b.ExternalsOf(indices), b.PoolsOf(indices), b.cap, level);
    assert Shares(b.ExternalsOf(indices), b.PoolsOf(indices), b.cap, level) == Gaps(t, rows, indices, level);
  }

  lemma BillIsTargets(t: Request, rows: seq<ValidatorStakeInfo>, b: Board, level: nat)
    requires OnBoard(t, rows, b)
    ensures Bill(b.externals, Zeros(|b.externals|), b.cap, level) == Sum(Targets(t, rows, level))
  {
    BillIsSum(b.externals, b.cap, level);
    assert StakesAt(b.externals, b.cap, level) == Targets(t, rows, level);
  }

  lemma {:induction false} ApartAddsUp(validators: seq<ValidatorStakeInfo>)
    ensures Sum(Staked(Filter(validators, Skipped))) + Sum(Actives(Filter(validators, Actionable)))
            == Sum(Staked(validators))
  {
    if validators != [] {
      var e, rest := validators[0], validators[1..];
      var skipped, actionable := Filter(rest, Skipped), Filter(rest, Actionable);
      ApartAddsUp(rest);
      assert Staked(validators) == [e.Lamports()] + Staked(rest);
      assert Staked([e] + skipped) == [e.Lamports()] + Staked(skipped);
      assert Actives([e] + actionable) == [e.active] + Actives(actionable);
    }
  }

  lemma RowsAre(validators: seq<ValidatorStakeInfo>)
    ensures forall e :: e in Filter(validators, Actionable)
                        <==> e in validators && e.status == Active && e.transient == 0
  {
    FilterHasOnly(validators, Actionable);
    forall e | e in validators && e.status == Active && e.transient == 0
      ensures e in Filter(validators, Actionable)
    {
      var i :| 0 <= i < |validators| && validators[i] == e;
      FilterHasAll(validators, Actionable, i);
    }
  }

  // ---------------------------------------------------------------------------------------
  // The plan is complete
  // ---------------------------------------------------------------------------------------

  lemma BoardFits(t: Request) returns (b: Board)
    requires Filter(t.validators, Actionable) != []
    ensures b == BoardOf(t.validators, t.activated, t.distributable, t.cap, t.rent)
    ensures OnBoard(t, Filter(t.validators, Actionable), b)
    ensures b.level == TargetLevel(b.externals, b.cap, Remaining(t, b.validators))
  {
    b := BoardOf(t.validators, t.activated, t.distributable, t.cap, t.rent);
    ApartAddsUp(t.validators);
  }

  lemma LevelIsHighest(t: Request, b: Board, o: Outline)
    requires OnBoard(t, o.rows, b) && o.rows == Filter(t.validators, Actionable) != [] && o.level == b.level
    requires b.level == TargetLevel(b.externals, b.cap, Remaining(t, o.rows))
    ensures Levelling(t, o)
  {
    RowsAre(t.validators);
    BillIsTargets(t, o.rows, b, b.level);
    BillIsTargets(t, o.rows, b, b.level + 1);
    NoLevelIsFree(b.externals, Zeros(|b.externals|), b.cap);
    if b.level == MaxOf(b.externals) + b.cap {
      AllAtCap(t, b, o);
    }
  }

  lemma AllAtCap(t: Request, b: Board, o: Outline)
    requires OnBoard(t, o.rows, b) && o.rows != [] && o.level == MaxOf(b.externals) + b.cap
    ensures forall k :: 0 <= k < |o.rows| ==> At(o.rows[k], t.activated, t.cap, o.level) == t.cap
  {
    forall k | 0 <= k < |o.rows|
      ensures At(o.rows[k], t.activated, t.cap, o.level) == t.cap
    {
      assert b.externals[k] <= MaxOf(b.externals);
    }
  }

  /** A row below its target is left out only if the reserve cannot pay one more rent. */
  lemma LeftOutForRent(b: Board, usable: nat, j: nat)
    requires b.Valid() && j < |b.validators| && b.validators[j].active < b.Target(j) && j !in Chosen(b, usable)
    ensures usable < (|Chosen(b, usable)| + 1) * b.rent
  {
    var order := OrderOfWanting(b);
    WantingIsStrict(b, |b.validators|);
    var y :| 0 <= y < |order| && order[y] == j;
    assert Chosen(b, usable) == order[..Affordable(|order|, usable, b.rent)];
    assert order[..|order|] == order;
  }

  lemma LeftOut(t: Request, b: Board, o: Outline, j: nat)
    requires OnBoard(t, o.rows, b) && o.level == b.level && o.chosen == Chosen(b, t.usable)
    requires Wants(t, o, j) && j !in o.chosen
    ensures forall k :: k in o.chosen ==>
              k < |o.rows|
              && Elsewhere(o.rows[k], t.activated) + o.rows[k].active
                 <= Elsewhere(o.rows[j], t.activated) + o.rows[j].active
  {
    forall k | k in o.chosen
      ensures k < |o.rows|
      ensures b.externals[k] + o.rows[k].active <= b.externals[j] + o.rows[j].active
    {
      ChosenAreLeastStaked(b, t.usable, k, j);
    }
  }

  lemma ChosenWant(t: Request, b: Board, o: Outline, k: nat)
    requires OnBoard(t, o.rows, b) && o.level == b.level && o.chosen == Chosen(b, t.usable) && k in o.chosen
    ensures Wants(t, o, k)
  {
    ChosenAreWanting(b, t.usable);
    var x :| 0 <= x < |o.chosen| && o.chosen[x] == k;
  }

  lemma ChoiceIsMade(t: Request, b: Board, o: Outline)
    requires OnBoard(t, o.rows, b) && o.level == b.level && o.chosen == Chosen(b, t.usable)
    ensures Choice(t, o)
  {
    ChosenAreWanting(b, t.usable);
    forall k | k in o.chosen
      ensures Wants(t, o, k)
    {
      ChosenWant(t, b, o, k);
    }
    forall j: nat | Wants(t, o, j) && j !in o.chosen
      ensures t.usable < (|o.chosen| + 1) * t.rent
      ensures forall k :: k in o.chosen ==>
                Elsewhere(o.rows[k], t.activated) + o.rows[k].active
                <= Elsewhere(o.rows[j], t.activated) + o.rows[j].active
    {
      LeftOutForRent(b, t.usable, j);
      LeftOut(t, b, o, j);
    }
  }

  lemma ReachIsFound(t: Request, b: Board, o: Outline)
    requires OnBoard(t, o.rows, b) && o.level == b.level && o.chosen == Chosen(b, t.usable)
    requires o.reach == Reach(b, t.usable)
    ensures Reaching(t, o)
  {
    BillIsGaps(t, o.rows, b, o.chosen, o.reach);
    BillIsGaps(t, o.rows, b, o.chosen, o.reach + 1);
    NoLevelIsFree(b.ExternalsOf(o.chosen), b.PoolsOf(o.chosen), b.cap);
  }

  lemma MoveIff(t: Request, b: Board, o: Outline, i: nat, lamports: int)
    requires OnBoard(t, o.rows, b) && o.level == b.level && o.chosen == Chosen(b, t.usable)
    requires o.reach == Reach(b, t.usable)
    ensures i < |o.rows| ==> (Move(i, lamports) in Moves(b, t.usable) <==> Shifts(t, o, i, lamports))
  {
    DecreaseIff(b, |b.validators|, i, lamports);
    IncreaseIff(b, o.chosen, o.reach, i, lamports);
  }

  lemma MovesAreContained(t: Request, b: Board, o: Outline)
    requires OnBoard(t, o.rows, b) && o.level == b.level && o.chosen == Chosen(b, t.usable)
    requires o.reach == Reach(b, t.usable)
    ensures InBounds(b, Moves(b, t.usable)) && Contains(t, o, Changes(b, Moves(b, t.usable)))
  {
    MovesAreSafe(b, t.usable);
    forall vote, lamports
      ensures StakeChange(vote, lamports) in Changes(b, Moves(b, t.usable))
              <==> exists k: nat :: Shifts(t, o, k, lamports) && o.rows[k].vote == vote
    {
      ChangeIff(b, Moves(b, t.usable), vote, lamports);
      forall i: nat
        ensures i < |o.rows| ==> (Move(i, lamports) in Moves(b, t.usable) <==> Shifts(t, o, i, lamports))
      {
        MoveIff(t, b, o, i, lamports);
      }
    }
  }

  /**
   * The plan is complete: there is a level the pool can fill and no higher one, as many of the validators
   * below it as the reserve can pay a rent for, the least staked first, and a level these can be raised to
   * now and no higher one; and the plan holds exactly the decreases to the first and the increases to the
   * second that are not below the minimum.
   */
  lemma PlanIsComplete(t: Request) returns (o: Outline)
    ensures Levelling(t, o) && Choice(t, o) && Below(o.chosen, |o.rows|) && Reaching(t, o)
    ensures Contains(t, o, Plan(t.validators, t.activated, t.distributable, t.cap, t.usable, t.rent))
  {
    var rows := Filter(t.validators, Actionable);
    if rows == [] {
      o := Outline([], 0, [], 0);
      RowsAre(t.validators);
    } else {
      var b := BoardFits(t);
      o := Outline(rows, b.level, Chosen(b, t.usable), Reach(b, t.usable));
      LevelIsHighest(t, b, o);
      ChoiceIsMade(t, b, o);
      ReachIsFound(t, b, o);
      MovesAreContained(t, b, o);
    }
  }
}
