/** The rebalancing plan that equalizes total stake, limited by what the reserve can pay now. */
module Planner {
  import opened Base
  import opened Sums
  import opened Seqs
  import opened World
  import opened Levels
  import opened Sorting

  /** The smallest change the bot asks for, and the delegation it leaves to a validator: 100 SOL. */
  const MINIMUM_CHANGE: nat := 100_000_000_000

  datatype StakeChange = StakeChange(vote: Pubkey, lamports: int)

  // ---------------------------------------------------------------------------------------
  // The plan
  // ---------------------------------------------------------------------------------------

  /** Stake moved at one of the validators, up or down. */
  datatype Move = Move(index: nat, lamports: int)

  /** The validators that can be touched in this epoch, and what they are to be levelled to. */
  datatype Board = Board(validators: seq<ValidatorStakeInfo>, externals: seq<nat>, cap: nat, rent: nat, level: nat) {
    predicate Valid() {
      |externals| == |validators|
    }

    function Target(i: nat): nat
      requires Valid() && i < |validators|
    {
      StakeFromPool(externals[i], level, cap)
    }

    /** What a decrease takes: never below what an account has to keep. */
    function Surplus(i: nat): int
      requires Valid() && i < |validators|
    {
      validators[i].active - Max(Target(i), rent + MINIMUM_CHANGE)
    }

    function Missing(i: nat, reach: nat): int
      requires Valid() && i < |validators|
    {
      StakeFromPool(externals[i], reach, cap) - validators[i].active
    }

    function Keys(): (r: seq<nat>)
      requires Valid()
      ensures |r| == |validators|
    {
      seq(|validators|, i requires 0 <= i < |validators| => externals[i] + validators[i].active)
    }

    function ExternalsOf(indices: seq<nat>): (r: seq<nat>)
      requires Valid() && forall k :: 0 <= k < |indices| ==> indices[k] < |validators|
      ensures |r| == |indices|
    {
      seq(|indices|, k requires 0 <= k < |indices| => externals[indices[k]])
    }

    function PoolsOf(indices: seq<nat>): (r: seq<nat>)
      requires Valid() && forall k :: 0 <= k < |indices| ==> indices[k] < |validators|
      ensures |r| == |indices|
    {
      seq(|indices|, k requires 0 <= k < |indices| => validators[indices[k]].active)
    }
  }

  /** The decreases among the first n validators. */
  function Decreases(b: Board, n: nat): (r: seq<Move>)
    requires b.Valid() && n <= |b.validators|
  {
    if n == 0 then []
    else if b.validators[n - 1].active > b.Target(n - 1) && b.Surplus(n - 1) >= MINIMUM_CHANGE then
      Decreases(b, n - 1) + [Move(n - 1, -b.Surplus(n - 1))]
    else Decreases(b, n - 1)
  }

  /** Those of the first n validators that are below their target. */
  function Wanting(b: Board, n: nat): (r: seq<nat>)
    requires b.Valid() && n <= |b.validators|
    ensures Below(r, n)
  {
    if n == 0 then []
    else if b.validators[n - 1].active < b.Target(n - 1) then Wanting(b, n - 1) + [n - 1]
    else Wanting(b, n - 1)
  }

  /** How many of n increases can have their rent paid. */
  function Affordable(n: nat, usable: nat, rent: nat): (k: nat)
    ensures k <= n && (k > 0 ==> k * rent <= usable)
    ensures k < n ==> usable < (k + 1) * rent
  {
    if n == 0 || usable >= n * rent then n else Affordable(n - 1, usable, rent)
  }

  /** The least staked validators whose increase can be started. */
  function Chosen(b: Board, usable: nat): (r: seq<nat>)
    requires b.Valid()
    ensures Below(r, |b.validators|)
  {
    var order := SortByKey(Wanting(b, |b.validators|), b.Keys());
    order[..Affordable(|order|, usable, b.rent)]
  }

  /** The level the reserve can lift the chosen validators to now. */
  function Reach(b: Board, usable: nat): nat
    requires b.Valid()
  {
    var chosen := Chosen(b, usable);
    GreatestLevel(b.ExternalsOf(chosen), b.PoolsOf(chosen), b.cap, usable - |chosen| * b.rent, b.level)
  }

  /** The increases of the given validators up to a level. */
  function Increases(b: Board, indices: seq<nat>, reach: nat): (r: seq<Move>)
    requires b.Valid() && Below(indices, |b.validators|)
  {
    if indices == [] then []
    else
      var last := |indices| - 1;
      var lamports := b.Missing(indices[last], reach);
      if lamports >= MINIMUM_CHANGE then Increases(b, indices[..last], reach) + [Move(indices[last], lamports)]
      else Increases(b, indices[..last], reach)
  }

  function Moves(b: Board, usable: nat): seq<Move>
    requires b.Valid()
  {
    Decreases(b, |b.validators|) + Increases(b, Chosen(b, usable), Reach(b, usable))
  }

  ghost predicate InBounds(b: Board, moves: seq<Move>) {
    forall k :: 0 <= k < |moves| ==> moves[k].index < |b.validators|
  }

  function ChangeOf(b: Board, m: Move): StakeChange
    requires m.index < |b.validators|
  {
    StakeChange(b.validators[m.index].vote, m.lamports)
  }

  function Changes(b: Board, moves: seq<Move>): (r: seq<StakeChange>)
    requires InBounds(b, moves)
    ensures |r| == |moves|
  {
    seq(|moves|, k requires 0 <= k < |moves| => ChangeOf(b, moves[k]))
  }

  // ---------------------------------------------------------------------------------------
  // Every move is safe and no validator moves twice
  // ---------------------------------------------------------------------------------------

  /** An increase stays within the target; a decrease leaves the target and what the account has to keep. */
  ghost predicate SafeMove(b: Board, m: Move)
    requires b.Valid()
  {
    && m.index < |b.validators|
    && var after := b.validators[m.index].active + m.lamports;
       if m.lamports > 0 then MINIMUM_CHANGE <= m.lamports && after <= b.Target(m.index)
       else MINIMUM_CHANGE <= -m.lamports && b.rent + MINIMUM_CHANGE <= after && b.Target(m.index) <= after
  }

  /** No validator is moved twice. */
  ghost predicate OneEach(moves: seq<Move>) {
    forall k, l :: 0 <= k < l < |moves| ==> moves[k].index != moves[l].index
  }

  lemma {:induction false} DecreasesAreSafe(b: Board, n: nat)
    requires b.Valid() && n <= |b.validators|
    ensures forall k :: 0 <= k < |Decreases(b, n)| ==>
              var m := Decreases(b, n)[k];
              SafeMove(b, m) && m.lamports < 0 && m.index < n && b.validators[m.index].active > b.Target(m.index)
    ensures OneEach(Decreases(b, n))
  {
    if n > 0 {
      DecreasesAreSafe(b, n - 1);
    }
  }

  lemma {:induction false} WantingIsStrict(b: Board, n: nat)
    requires b.Valid() && n <= |b.validators|
    ensures NoRepeats(Wanting(b, n))
    ensures forall i :: i in Wanting(b, n) <==> 0 <= i < n && b.validators[i].active < b.Target(i)
  {
    if n > 0 {
      WantingIsStrict(b, n - 1);
    }
  }

  lemma OrderOfWanting(b: Board) returns (order: seq<nat>)
    requires b.Valid()
    ensures order == SortByKey(Wanting(b, |b.validators|), b.Keys())
    ensures NoRepeats(order) && Ordered(order, b.Keys())
    ensures forall i :: i in order <==> i in Wanting(b, |b.validators|)
  {
    var wanting, keys := Wanting(b, |b.validators|), b.Keys();
    order := SortByKey(wanting, keys);
    WantingIsStrict(b, |b.validators|);
    SortPermutes(wanting, keys);
    SortOrders(wanting, keys);
    PermutedNoRepeats(wanting, order);
    forall i
      ensures i in order <==> i in wanting
    {
      assert i in order <==> i in multiset(order);
    }
  }

  /** The chosen validators are below their targets. */
  lemma ChosenAreWanting(b: Board, usable: nat)
    requires b.Valid()
    ensures NoRepeats(Chosen(b, usable))
    ensures forall k :: 0 <= k < |Chosen(b, usable)| ==>
              var i := Chosen(b, usable)[k]; b.validators[i].active < b.Target(i)
  {
    var order := OrderOfWanting(b);
    var chosen := Chosen(b, usable);
    WantingIsStrict(b, |b.validators|);
    forall k | 0 <= k < |chosen|
      ensures b.validators[chosen[k]].active < b.Target(chosen[k])
    {
      assert order[k] in order;
    }
  }

  /** No validator below its target that was left out is staked less than one that was chosen. */
  lemma ChosenAreLeastStaked(b: Board, usable: nat, i: nat, j: nat)
    requires b.Valid()
    requires i in Chosen(b, usable) && j !in Chosen(b, usable)
    requires j < |b.validators| && b.validators[j].active < b.Target(j)
    ensures i < |b.validators|
    ensures b.externals[i] + b.validators[i].active <= b.externals[j] + b.validators[j].active
  {
    var order := OrderOfWanting(b);
    var chosen := Chosen(b, usable);
    WantingIsStrict(b, |b.validators|);
    assert j in order;
    var x :| 0 <= x < |chosen| && chosen[x] == i;
    var y :| 0 <= y < |order| && order[y] == j;
    assert y >= |chosen|;
  }

  lemma {:induction false} IncreasesAreSafe(b: Board, indices: seq<nat>, reach: nat)
    requires b.Valid() && Below(indices, |b.validators|) && NoRepeats(indices) && reach <= b.level
    ensures forall k :: 0 <= k < |Increases(b, indices, reach)| ==>
              var m := Increases(b, indices, reach)[k];
              SafeMove(b, m) && m.lamports > 0 && m.index in indices
    ensures OneEach(Increases(b, indices, reach))
    decreases |indices|
  {
    if indices != [] {
      IncreasesAreSafe(b, indices[..|indices| - 1], reach);
    }
  }

  /** Every planned move is safe, and no validator is moved twice. */
  lemma MovesAreSafe(b: Board, usable: nat)
    requires b.Valid()
    ensures forall k :: 0 <= k < |Moves(b, usable)| ==> SafeMove(b, Moves(b, usable)[k])
    ensures OneEach(Moves(b, usable))
    ensures InBounds(b, Moves(b, usable))
  {
    var down, up := Decreases(b, |b.validators|), Increases(b, Chosen(b, usable), Reach(b, usable));
    DecreasesAreSafe(b, |b.validators|);
    ChosenAreWanting(b, usable);
    IncreasesAreSafe(b, Chosen(b, usable), Reach(b, usable));
    var moves := Moves(b, usable);
    forall k, l | 0 <= k < l < |moves|
      ensures moves[k].index != moves[l].index
    {
      if k < |down| <= l {
        assert up[l - |down|].index in Chosen(b, usable);
        assert b.validators[down[k].index].active > b.Target(down[k].index);
      }
    }
  }

  // ---------------------------------------------------------------------------------------
  // The reserve can pay for all increases
  // ---------------------------------------------------------------------------------------

  /** What a change takes out of the usable reserve: an increase needs its lamports and one rent. */
  function Cost(m: Move, rent: nat): nat {
    if m.lamports > 0 then m.lamports + rent else 0
  }

  function Costs(moves: seq<Move>, rent: nat): (r: seq<nat>)
    ensures |r| == |moves|
  {
    seq(|moves|, k requires 0 <= k < |moves| => Cost(moves[k], rent))
  }

  lemma Times(n: nat, rent: nat)
    ensures (1 + n) * rent == rent + n * rent
  {
  }

  lemma {:induction false} BillAppend(externals: seq<nat>, pools: seq<nat>, external: nat, pool: nat, cap: nat,
                                      level: nat)
    requires |externals| == |pools|
    ensures Bill(externals + [external], pools + [pool], cap, level)
            == Bill(externals, pools, cap, level) + Max(StakeFromPool(external, level, cap) - pool, 0)
  {
    if externals == [] {
      assert externals + [external] == [external] && pools + [pool] == [pool];
    } else {
      assert (externals + [external])[1..] == externals[1..] + [external];
      assert (pools + [pool])[1..] == pools[1..] + [pool];
      BillAppend(externals[1..], pools[1..], external, pool, cap, level);
    }
  }

  lemma CostSnoc(moves: seq<Move>, m: Move, rent: nat)
    ensures Sum(Costs(moves + [m], rent)) == Sum(Costs(moves, rent)) + Cost(m, rent)
  {
    assert Costs(moves + [m], rent) == Costs(moves, rent) + [Cost(m, rent)];
    SumConcat(Costs(moves, rent), [Cost(m, rent)]);
  }

  lemma {:induction false} IncreasesCost(b: Board, indices: seq<nat>, reach: nat)
    requires b.Valid() && Below(indices, |b.validators|)
    ensures Sum(Costs(Increases(b, indices, reach), b.rent))
            <= Bill(b.ExternalsOf(indices), b.PoolsOf(indices), b.cap, reach) + |indices| * b.rent
    decreases |indices|
  {
    if indices != [] {
      var last := |indices| - 1;
      var front, i := indices[..last], indices[last];
      IncreasesCost(b, front, reach);
      assert b.ExternalsOf(indices) == b.ExternalsOf(front) + [b.externals[i]];
      assert b.PoolsOf(indices) == b.PoolsOf(front) + [b.validators[i].active];
      BillAppend(b.ExternalsOf(front), b.PoolsOf(front), b.externals[i], b.validators[i].active, b.cap, reach);
      Times(last, b.rent);
      CostSnoc(Increases(b, front, reach), Move(i, b.Missing(i, reach)), b.rent);
    }
  }

  lemma {:induction false} DecreasesCostNothing(b: Board, n: nat)
    requires b.Valid() && n <= |b.validators|
    ensures Sum(Costs(Decreases(b, n), b.rent)) == 0
  {
    if n > 0 {
      DecreasesCostNothing(b, n - 1);
      CostSnoc(Decreases(b, n - 1), Move(n - 1, -b.Surplus(n - 1)), b.rent);
    }
  }

  /** All increases together, each with the rent of its transient account, fit the usable reserve. */
  lemma MovesAreFunded(b: Board, usable: nat)
    requires b.Valid()
    ensures Sum(Costs(Moves(b, usable), b.rent)) <= usable
  {
    var chosen, reach := Chosen(b, usable), Reach(b, usable);
    var down, up := Decreases(b, |b.validators|), Increases(b, chosen, reach);
    IncreasesCost(b, chosen, reach);
    DecreasesCostNothing(b, |b.validators|);
    NoLevelIsFree(b.ExternalsOf(chosen), b.PoolsOf(chosen), b.cap);
    assert Costs(down + up, b.rent) == Costs(down, b.rent) + Costs(up, b.rent);
    SumConcat(Costs(down, b.rent), Costs(up, b.rent));
  }

  // ---------------------------------------------------------------------------------------
  // The plan for a whole list
  // ---------------------------------------------------------------------------------------

  /** Stake that is on its way or marked for removal cannot be touched in this epoch. */
  predicate Actionable(e: ValidatorStakeInfo) {
    e.status == Active && e.transient == 0
  }

  predicate Skipped(e: ValidatorStakeInfo) {
    !Actionable(e)
  }

  /** What a validator votes with beyond what this pool gave it. */
  function External(e: ValidatorStakeInfo, activated: map<Pubkey, nat>): nat {
    SatSub(if e.vote in activated then activated[e.vote] else 0, e.active)
  }

  function Externals(actionable: seq<ValidatorStakeInfo>, activated: map<Pubkey, nat>): (r: seq<nat>)
    ensures |r| == |actionable|
  {
    seq(|actionable|, i requires 0 <= i < |actionable| => External(actionable[i], activated))
  }

  function BoardOf(validators: seq<ValidatorStakeInfo>, activated: map<Pubkey, nat>, distributable: nat, cap: nat,
                   rent: nat): (b: Board)
    requires Filter(validators, Actionable) != []
    ensures b.Valid()
  {
    var actionable := Filter(validators, Actionable);
    var externals := Externals(actionable, activated);
    var remaining := SatSub(distributable, Sum(Staked(Filter(validators, Skipped))));
    Board(actionable, externals, cap, rent, TargetLevel(externals, cap, remaining))
  }

  ghost function Plan(validators: seq<ValidatorStakeInfo>, activated: map<Pubkey, nat>, distributable: nat, cap: nat,
                      usable: nat, rent: nat): seq<StakeChange>
  {
    if Filter(validators, Actionable) == [] then []
    else
      var b := BoardOf(validators, activated, distributable, cap, rent);
      MovesAreSafe(b, usable);
      Changes(b, Moves(b, usable))
  }

  lemma FilterSnoc<T>(s: seq<T>, i: nat, keep: T -> bool)
    requires i < |s|
    ensures Filter(s[..i + 1], keep) == Filter(s[..i], keep) + (if keep(s[i]) then [s[i]] else [])
  {
    assert s[..i + 1] == s[..i] + [s[i]];
    FilterConcat(s[..i], [s[i]], keep);
  }

  /** Separate the validators that can be touched from the others. */
  method Partition(validators: seq<ValidatorStakeInfo>)
    returns (actionable: seq<ValidatorStakeInfo>, skipped: seq<ValidatorStakeInfo>)
    ensures actionable == Filter(validators, Actionable) && skipped == Filter(validators, Skipped)
  {
    actionable, skipped := [], [];
    for i := 0 to |validators|
      invariant actionable == Filter(validators[..i], Actionable) && skipped == Filter(validators[..i], Skipped)
    {
      FilterSnoc(validators, i, Actionable);
      FilterSnoc(validators, i, Skipped);
      if validators[i].status != Active {
        skipped := skipped + [validators[i]];
      } else if validators[i].transient != 0 {
        skipped := skipped + [validators[i]];
      } else {
        actionable := actionable + [validators[i]];
      }
    }
    assert validators[..|validators|] == validators;
  }

  /** One pass over the validators: plan the decreases, collect the ones below their target. */
  method Compare(b: Board) returns (changes: seq<StakeChange>, wanting: seq<nat>)
    requires b.Valid()
    ensures InBounds(b, Decreases(b, |b.validators|))
    ensures changes == Changes(b, Decreases(b, |b.validators|)) && wanting == Wanting(b, |b.validators|)
  {
    changes, wanting := [], [];
    for i := 0 to |b.validators|
      invariant InBounds(b, Decreases(b, i))
      invariant changes == Changes(b, Decreases(b, i)) && wanting == Wanting(b, i)
    {
      var active, target := b.validators[i].active, b.Target(i);
      if active > target {
        var lamports := active - Max(target, b.rent + MINIMUM_CHANGE);
        if lamports >= MINIMUM_CHANGE {
          changes := changes + [StakeChange(b.validators[i].vote, -lamports)];
        }
      } else if active < target {
        wanting := wanting + [i];
      }
    }
  }

  /** Give up on the most staked validators until the reserve can pay the rent of all increases. */
  method Drop(order: seq<nat>, usable: nat, rent: nat) returns (kept: seq<nat>)
    ensures kept == order[..Affordable(|order|, usable, rent)]
  {
    kept := order;
    while kept != [] && usable < |kept| * rent
      invariant |kept| <= |order| && kept == order[..|kept|]
      invariant Affordable(|kept|, usable, rent) == Affordable(|order|, usable, rent)
      decreases |kept|
    {
      kept := kept[..|kept| - 1];
    }
  }

  method Raise(b: Board, chosen: seq<nat>, reach: nat) returns (changes: seq<StakeChange>)
    requires b.Valid() && Below(chosen, |b.validators|)
    ensures InBounds(b, Increases(b, chosen, reach))
    ensures changes == Changes(b, Increases(b, chosen, reach))
  {
    changes := [];
    for k := 0 to |chosen|
      invariant InBounds(b, Increases(b, chosen[..k], reach))
      invariant changes == Changes(b, Increases(b, chosen[..k], reach))
    {
      assert chosen[..k + 1][..k] == chosen[..k];
      var i := chosen[k];
      var lamports := StakeFromPool(b.externals[i], reach, b.cap) - b.validators[i].active;
      if lamports >= MINIMUM_CHANGE {
        changes := changes + [StakeChange(b.validators[i].vote, lamports)];
      }
    }
    assert chosen[..|chosen|] == chosen;
  }

  /** What the validators got elsewhere, and the level this pool can lift them to. */
  method SetTargets(validators: seq<ValidatorStakeInfo>, actionable: seq<ValidatorStakeInfo>,
                    skipped: seq<ValidatorStakeInfo>,
                    activated: map<Pubkey, nat>, distributable: nat, cap: nat, rent: nat) returns (b: Board)
    requires actionable == Filter(validators, Actionable) != [] && skipped == Filter(validators, Skipped)
    ensures b == BoardOf(validators, activated, distributable, cap, rent)
  {
    var externals := [];
    for i := 0 to |actionable|
      invariant externals == Externals(actionable, activated)[..i]
    {
      externals := externals + [External(actionable[i], activated)];
    }
    assert externals == Externals(actionable, activated);
    var remaining := SatSub(distributable, Sum(Staked(skipped)));
    var level := ComputeStakeLevel(externals, Zeros(|externals|), cap, remaining, MaxOf(externals) + cap);
    b := Board(actionable, externals, cap, rent, level);
  }

  lemma ChangesConcat(b: Board, down: seq<Move>, up: seq<Move>)
    requires InBounds(b, down) && InBounds(b, up)
    ensures InBounds(b, down + up) && Changes(b, down + up) == Changes(b, down) + Changes(b, up)
  {
  }

  /** The changes that bring the validators as close to their targets as the reserve allows. */
  method Distribute(b: Board, usable: nat) returns (changes: seq<StakeChange>)
    requires b.Valid()
    ensures InBounds(b, Moves(b, usable)) && changes == Changes(b, Moves(b, usable))
  {
    var wanting;
    changes, wanting := Compare(b);
    var chosen := Drop(SortByKey(wanting, b.Keys()), usable, b.rent);
    var budget := usable - |chosen| * b.rent;
    var reach := ComputeStakeLevel(b.ExternalsOf(chosen), b.PoolsOf(chosen), b.cap, budget, b.level);
    var raises := Raise(b, chosen, reach);
    changes := changes + raises;
    ChangesConcat(b, Decreases(b, |b.validators|), Increases(b, chosen, reach));
  }

  method PlanEqualizedStake(validators: seq<ValidatorStakeInfo>, activated: map<Pubkey, nat>, distributable: nat,
                            cap: nat,
                            usable: nat, rent: nat) returns (changes: seq<StakeChange>)
    ensures changes == Plan(validators, activated, distributable, cap, usable, rent)
  {
    var actionable, skipped := Partition(validators);
    if actionable == [] {
      return [];
    }
    var b := SetTargets(validators, actionable, skipped, activated, distributable, cap, rent);
    changes := Distribute(b, usable);
  }
}
