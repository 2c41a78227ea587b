/** The planned changes pass the on-chain guards, whichever of them run and in whatever order. */
module PlanExecution {
  import opened Base
  import opened Sums
  import opened Seqs
  import opened World
  import opened ListUpdate
  import opened Accounting
  import opened ChunkUpdate
  import Bytes
  import opened Handlers
  import opened Steps
  import opened ListRange
  import opened Sorting
  import opened Planner

  // ---------------------------------------------------------------------------------------
  // Executing changes
  // ---------------------------------------------------------------------------------------

  /**
   * The instruction the bot sends for a change, with a transient account of the next seed. What does
   * not fit its fields cannot be sent.
   */
  function InstructionFor(s: State, c: StakeChange): Result<Instruction> {
    var i :- Find(s, c.vote);
    var seed := s.validators[i].transientSeed + 1;
    if seed > U64_MAX || c.lamports > U64_MAX || -c.lamports > U64_MAX || !Bytes.Fits(c.vote, Bytes.KEY)
    then Err(InvalidInstructionData)
    else if c.lamports > 0 then Ok(InIncrease(c.vote, c.lamports, seed, None))
    else Ok(InDecrease(c.vote, -c.lamports, seed, None, true))
  }

  function Execute(s: State, c: StakeChange): Result<State> {
    var op :- InstructionFor(s, c);
    Apply(s, op)
  }

  function ExecuteAll(s: State, changes: seq<StakeChange>): Result<State> {
    if changes == [] then Ok(s)
    else
      var last := |changes| - 1;
      var s1 :- ExecuteAll(s, changes[..last]);
      Execute(s1, changes[last])
  }

  /** What a change takes out of the reserve. */
  function Spent(c: StakeChange, rent: nat): nat {
    Max(c.lamports, 0) + rent
  }

  function Spending(changes: seq<StakeChange>, rent: nat): (r: seq<nat>)
    ensures |r| == |changes|
  {
    seq(|changes|, k requires 0 <= k < |changes| => Spent(changes[k], rent))
  }

  /** A change of an untouched active validator that the chain's own limits allow. */
  ghost predicate Executable(s: State, c: StakeChange, i: nat) {
    && i < |s.validators| && s.validators[i].vote == c.vote && Actionable(s.validators[i])
    && Bytes.Fits(c.vote, Bytes.KEY)
    && (if c.lamports > 0 then s.chain.MinimumDelegation() <= c.lamports <= U64_MAX
        else && s.chain.MinimumDelegation() <= -c.lamports <= U64_MAX
             && s.chain.stakeRent + s.chain.MinimumDelegation() <= s.validators[i].active + c.lamports)
  }

  /** There is a next seed for the transient account of entry i. */
  ghost predicate SeedLeft(s: State, i: nat) {
    i < |s.validators| && s.validators[i].transientSeed < U64_MAX
  }

  /** In t entry i is as the change c of s left it: the stake is on its way between the two accounts. */
  ghost predicate Started(s: State, c: StakeChange, i: nat, t: State) {
    && i < |s.validators| && i < |t.validators|
    && var e, va := s.validators[i], s.validators[i].ValidatorAddress();
       var ta := TransientStake(e.vote, e.transientSeed + 1);
       && va in s.accounts && s.accounts[va].state.Delegated? && va in t.accounts && ta in t.accounts
       && -c.lamports <= s.accounts[va].lamports && -c.lamports <= e.active
       && (if c.lamports > 0 then
             && t.validators[i] == e.(transient := c.lamports + s.chain.stakeRent, transientSeed := e.transientSeed + 1)
             && t.accounts[va] == s.accounts[va]
             && t.accounts[ta] == StakeAccount(c.lamports + s.chain.stakeRent, true, s.chain.stakeRent,
                                               Delegated(c.lamports, s.epoch, EPOCH_MAX))
           else
             && t.validators[i] == e.(active := e.active + c.lamports, transient := -c.lamports + s.chain.stakeRent,
                                      transientSeed := e.transientSeed + 1)
             && t.accounts[va] == Reduced(s.accounts[va], -c.lamports)
             && e.transient == 0
             && t.accounts[ta] == DecreasedInto(s, e, e.transientSeed + 1, -c.lamports + s.chain.stakeRent,
                                                s.accounts[va]))
  }

  /** What a change does: it pays for itself and touches its own entry only. */
  ghost predicate Does(s: State, c: StakeChange, i: nat, s': State) {
    && Execute(s, c) == Ok(s') && Invariant(s')
    && s'.pool == s.pool && s'.epoch == s.epoch && s'.chain == s.chain
    && s'.reserve == s.reserve - Spent(c, s.chain.stakeRent)
    && Started(s, c, i, s')
    && (forall j :: 0 <= j < |s.validators| && j != i ==> LeftAlone(s, s', j))
  }

  lemma NewTransientIsFree(s: State, i: nat)
    requires Invariant(s) && i < |s.validators| && s.validators[i].transient == 0
    ensures TransientStake(s.validators[i].vote, s.validators[i].transientSeed + 1) !in s.accounts
  {
    var a := TransientStake(s.validators[i].vote, s.validators[i].transientSeed + 1);
    assert a in s.accounts ==> Owned(s.validators, a);
  }

  lemma IncreaseRuns(s: State, c: StakeChange, i: nat) returns (s': State)
    requires Invariant(s) && s.pool.lastUpdate == s.epoch && Executable(s, c, i) && SeedLeft(s, i) && c.lamports > 0
    requires s.chain.stakeRent + c.lamports + s.chain.stakeRent <= s.reserve <= U64_MAX
    ensures Does(s, c, i, s')
  {
    var e := s.validators[i];
    EntryInOrder(s, i);
    FindsTheOnlyEntry(s, i);
    NewTransientIsFree(s, i);
    s' := IncreaseValidatorStake(s, c.vote, c.lamports, e.transientSeed + 1, None).value;
    var k, total, y := IncreaseEffect(s, c.vote, c.lamports, e.transientSeed + 1, None, s');
    IncreaseKeeps(s, c.vote, c.lamports, e.transientSeed + 1, None, s');
    assert k == i;
    forall j | 0 <= j < |s.validators| && j != i
      ensures LeftAlone(s, s', j)
    {
      OtherEntryLeftAlone(s, s', j, i, s'.validators[i]);
    }
  }

  lemma DecreaseRuns(s: State, c: StakeChange, i: nat) returns (s': State)
    requires Invariant(s) && s.pool.lastUpdate == s.epoch && Executable(s, c, i) && SeedLeft(s, i) && c.lamports <= 0
    requires s.chain.stakeRent + s.chain.stakeRent <= s.reserve <= U64_MAX
    ensures Does(s, c, i, s')
  {
    var e := s.validators[i];
    EntryInOrder(s, i);
    FindsTheOnlyEntry(s, i);
    NewTransientIsFree(s, i);
    s' := DecreaseValidatorStake(s, c.vote, -c.lamports, e.transientSeed + 1, None, true).value;
    var k, rent, x, y := DecreaseEffect(s, c.vote, -c.lamports, e.transientSeed + 1, None, true, s');
    DecreaseKeeps(s, c.vote, -c.lamports, e.transientSeed + 1, None, true, s');
    assert k == i;
    forall j | 0 <= j < |s.validators| && j != i
      ensures LeftAlone(s, s', j)
    {
      OtherEntryLeftAlone(s, s', j, i, s'.validators[i]);
    }
  }

  lemma ChangeRuns(s: State, c: StakeChange, i: nat) returns (s': State)
    requires Invariant(s) && s.pool.lastUpdate == s.epoch && Executable(s, c, i) && SeedLeft(s, i)
    requires s.chain.stakeRent + Spent(c, s.chain.stakeRent) <= s.reserve <= U64_MAX
    ensures Does(s, c, i, s')
  {
    if c.lamports > 0 {
      s' := IncreaseRuns(s, c, i);
    } else {
      s' := DecreaseRuns(s, c, i);
    }
  }

  /** Without a next seed the instruction cannot even be sent. */
  lemma NoSeedNoChange(s: State, c: StakeChange, i: nat)
    requires Distinct(s.validators) && Executable(s, c, i) && !SeedLeft(s, i)
    ensures Execute(s, c) == Err(InvalidInstructionData)
  {
    FindsTheOnlyEntry(s, i);
  }

  /** What was executed is a step of a run, and keeps the pool's lamports together. */
  lemma ExecutionIsAStep(s: State, c: StakeChange, i: nat, s': State)
    requires Invariant(s) && s.pool.lastUpdate == s.epoch && Does(s, c, i, s')
    ensures Step(s, s') && Holdings(s') == Holdings(s)
  {
    var op := InstructionFor(s, c).value;
    assert Apply(s, op) == Ok(s');
    UpToDateMeansAccounted(s);
    UpToDateMeansAccounted(s');
  }

  // ---------------------------------------------------------------------------------------
  // Any selection, any order
  // ---------------------------------------------------------------------------------------

  /** Some of the changes, in some order. */
  function Pick(changes: seq<StakeChange>, order: seq<nat>): (r: seq<StakeChange>)
    requires Below(order, |changes|)
    ensures |r| == |order|
  {
    seq(|order|, k requires 0 <= k < |order| => changes[order[k]])
  }

  /** Changes of different entries that are all executable as things stand. */
  ghost predicate Independent(s: State, changes: seq<StakeChange>, at: seq<nat>) {
    && |at| == |changes| && NoRepeats(at)
    && (forall k {:trigger changes[k]} {:trigger at[k]} :: 0 <= k < |changes| ==> Executable(s, changes[k], at[k]))
  }

  /** The state after some changes: they are paid for and under way, and all other entries are as they were. */
  ghost predicate Underway(s: State, s': State, changes: seq<StakeChange>, at: seq<nat>, order: seq<nat>)
    requires |at| == |changes| && Below(order, |changes|)
  {
    && Invariant(s') && s'.pool == s.pool && s'.epoch == s.epoch && s'.chain == s.chain
    && s'.reserve == s.reserve - Sum(Select(Spending(changes, s.chain.stakeRent), order))
    && Holdings(s') == Holdings(s)
    && Waits(s, s', at, order)
    && Begun(s, s', changes, at, order)
  }

  ghost predicate Waits(s: State, s': State, at: seq<nat>, order: seq<nat>) {
    forall k {:trigger at[k]} :: 0 <= k < |at| && k !in order ==> LeftAlone(s, s', at[k])
  }

  ghost predicate Begun(s: State, s': State, changes: seq<StakeChange>, at: seq<nat>, order: seq<nat>)
    requires |at| == |changes|
  {
    forall k {:trigger at[k]} :: 0 <= k < |at| && k in order ==> Started(s, changes[k], at[k], s')
  }

  lemma SelectSnoc(s: seq<nat>, order: seq<nat>, i: nat)
    requires Below(order, |s|) && i < |s| && NoRepeats(order) && i !in order
    ensures Sum(Select(s, order + [i])) == Sum(Select(s, order)) + s[i] <= Sum(s)
  {
    assert Select(s, order + [i]) == Select(s, order) + [s[i]];
    SumConcat(Select(s, order), [s[i]]);
    SumSelected(s, order + [i]);
  }

  /** Doing one more change leaves every entry alone that is still to come. */
  lemma OthersWait(s: State, s1: State, s': State, at: seq<nat>, order: seq<nat>, i: nat)
    requires NoRepeats(at) && i < |at| && Waits(s, s1, at, order)
    requires forall j :: 0 <= j < |s1.validators| && j != at[i] ==> LeftAlone(s1, s', j)
    ensures Waits(s, s', at, order + [i])
  {
    forall k | 0 <= k < |at| && k !in order + [i]
      ensures LeftAlone(s, s', at[k])
    {
      assert k !in order && k != i;
      assert at[k] != at[i];
      assert LeftAlone(s, s1, at[k]);
      assert LeftAlone(s1, s', at[k]);
    }
  }

  lemma StartedStays(s: State, c: StakeChange, i: nat, t: State, t': State)
    requires Started(s, c, i, t) && LeftAlone(t, t', i)
    ensures Started(s, c, i, t')
  {
  }

  lemma StartedFromSame(s: State, s1: State, c: StakeChange, i: nat, t: State)
    requires LeftAlone(s, s1, i) && s1.chain == s.chain && s1.epoch == s.epoch && Started(s1, c, i, t)
    requires s.validators[i].transient == 0
    ensures Started(s, c, i, t)
  {
  }

  /** And one more under way. */
  lemma OthersBegun(s: State, s1: State, s': State, changes: seq<StakeChange>, at: seq<nat>, order: seq<nat>, i: nat)
    requires |at| == |changes| && NoRepeats(at) && i < |at| && i !in order && Begun(s, s1, changes, at, order)
    requires forall j :: 0 <= j < |s1.validators| && j != at[i] ==> LeftAlone(s1, s', j)
    requires Started(s, changes[i], at[i], s')
    ensures Begun(s, s', changes, at, order + [i])
  {
    forall k | 0 <= k < |at| && k in order + [i]
      ensures Started(s, changes[k], at[k], s')
    {
      if k != i {
        assert k in order && at[k] != at[i];
        assert Started(s, changes[k], at[k], s1);
        StartedStays(s, changes[k], at[k], s1, s');
      }
    }
  }

  lemma StillExecutable(s: State, s1: State, c: StakeChange, i: nat)
    requires Executable(s, c, i) && LeftAlone(s, s1, i) && s1.chain == s.chain
    ensures Executable(s1, c, i) && (SeedLeft(s1, i) <==> SeedLeft(s, i))
  {
  }

  /** The reserve can pay for all changes together. */
  ghost predicate Affords(s: State, changes: seq<StakeChange>) {
    s.chain.stakeRent + Sum(Spending(changes, s.chain.stakeRent)) <= s.reserve <= U64_MAX
  }

  lemma OneMore(s: State, s1: State, changes: seq<StakeChange>, at: seq<nat>, order: seq<nat>, i: nat)
    returns (s': State)
    requires Independent(s, changes, at) && s.pool.lastUpdate == s.epoch && Affords(s, changes)
    requires Below(order, |changes|) && i < |changes| && NoRepeats(order) && i !in order && SeedLeft(s, at[i])
    requires Underway(s, s1, changes, at, order)
    ensures Does(s1, changes[i], at[i], s') && Step(s1, s') && Underway(s, s', changes, at, order + [i])
  {
    var rents := Spending(changes, s.chain.stakeRent);
    SelectSnoc(rents, order, i);
    assert rents[i] == Spent(changes[i], s.chain.stakeRent);
    assert Executable(s, changes[i], at[i]) && LeftAlone(s, s1, at[i]);
    StillExecutable(s, s1, changes[i], at[i]);
    s' := ChangeRuns(s1, changes[i], at[i]);
    ExecutionIsAStep(s1, changes[i], at[i], s');
    OthersWait(s, s1, s', at, order, i);
    StartedFromSame(s, s1, changes[i], at[i], s');
    OthersBegun(s, s1, s', changes, at, order, i);
  }

  /** The changes lead from s to s'. */
  ghost predicate Leads(s: State, changes: seq<StakeChange>, s': State) {
    ExecuteAll(s, changes) == Ok(s')
  }

  lemma LeadsOn(s: State, changes: seq<StakeChange>, s1: State, c: StakeChange, i: nat, s': State)
    requires Leads(s, changes, s1) && Does(s1, c, i, s')
    ensures Leads(s, changes + [c], s')
  {
    assert (changes + [c])[..|changes|] == changes;
  }

  lemma NothingDone(s: State, changes: seq<StakeChange>, at: seq<nat>)
    requires Invariant(s) && Independent(s, changes, at)
    ensures Underway(s, s, changes, at, [])
  {
    forall k | 0 <= k < |at|
      ensures LeftAlone(s, s, at[k])
    {
      assert Executable(s, changes[k], at[k]);
    }
  }

  lemma PickSnoc(changes: seq<StakeChange>, order: seq<nat>)
    requires Below(order, |changes|) && order != [] && NoRepeats(order)
    ensures var last := |order| - 1;
            && order[..last] + [order[last]] == order && order[last] !in order[..last]
            && Pick(changes, order) == Pick(changes, order[..last]) + [changes[order[last]]]
  {
  }

  lemma RunGrows(run: seq<State>, s': State)
    requires Run(run) && Step(run[|run| - 1], s') && Holdings(s') <= U64_MAX
    ensures Run(run + [s'])
  {
    var longer := run + [s'];
    forall i | 0 <= i < |longer| - 1
      ensures StepAt(longer, i)
    {
      if i < |run| - 1 {
        assert StepAt(run, i);
      }
    }
  }

  ghost predicate SeedsLeft(s: State, at: seq<nat>, order: seq<nat>)
    requires Below(order, |at|)
  {
    forall k {:trigger order[k]} :: 0 <= k < |order| ==> SeedLeft(s, at[order[k]])
  }

  /** The run in which the selected changes were executed. */
  ghost predicate Executed(s: State, changes: seq<StakeChange>, at: seq<nat>, order: seq<nat>, run: seq<State>)
    requires |at| == |changes| && Below(order, |changes|)
  {
    && |run| == |order| + 1 && Run(run) && run[0] == s
    && Leads(s, Pick(changes, order), run[|order|])
    && Underway(s, run[|order|], changes, at, order)
  }

  lemma ExecutedNothing(s: State, changes: seq<StakeChange>, at: seq<nat>)
    requires Invariant(s) && Independent(s, changes, at) && Holdings(s) <= U64_MAX
    ensures Executed(s, changes, at, [], [s])
  {
    NothingDone(s, changes, at);
    assert Pick(changes, []) == [];
  }

  lemma ExecutedOneMore(s: State, changes: seq<StakeChange>, at: seq<nat>, order: seq<nat>, run: seq<State>, i: nat)
    returns (longer: seq<State>)
    requires Independent(s, changes, at) && s.pool.lastUpdate == s.epoch && Affords(s, changes)
    requires Below(order, |changes|) && i < |changes| && NoRepeats(order) && i !in order && SeedLeft(s, at[i])
    requires Holdings(s) <= U64_MAX && Executed(s, changes, at, order, run)
    ensures Executed(s, changes, at, order + [i], longer)
  {
    var s1 := run[|order|];
    var s' := OneMore(s, s1, changes, at, order, i);
    LeadsOn(s, Pick(changes, order), s1, changes[i], at[i], s');
    assert Pick(changes, order + [i]) == Pick(changes, order) + [changes[i]];
    RunGrows(run, s');
    longer := run + [s'];
  }

  /** Any selection of changes that have a seed left runs, in any order, and what happens is a run of the pool. */
  lemma {:induction false} RunsInAnyOrder(s: State, changes: seq<StakeChange>, at: seq<nat>, order: seq<nat>)
    returns (run: seq<State>)
    requires Invariant(s) && s.pool.lastUpdate == s.epoch && Holdings(s) <= U64_MAX && Affords(s, changes)
    requires Independent(s, changes, at)
    requires Below(order, |changes|) && NoRepeats(order) && SeedsLeft(s, at, order)
    ensures Executed(s, changes, at, order, run)
    decreases |order|
  {
    if order == [] {
      run := [s];
      ExecutedNothing(s, changes, at);
    } else {
      var last := |order| - 1;
      PickSnoc(changes, order);
      var front := RunsInAnyOrder(s, changes, at, order[..last]);
      assert SeedLeft(s, at[order[last]]);
      run := ExecutedOneMore(s, changes, at, order[..last], front, order[last]);
    }
  }

  /** Once a change fails, so does everything that was to follow it. */
  lemma {:induction false} FailureStays(s: State, changes: seq<StakeChange>, n: nat)
    requires n <= |changes| && ExecuteAll(s, changes[..n]).Err?
    ensures ExecuteAll(s, changes).Err?
    decreases |changes| - n
  {
    if n < |changes| {
      assert changes[..n + 1][..n] == changes[..n];
      FailureStays(s, changes, n + 1);
    } else {
      assert changes[..n] == changes;
    }
  }

  /** A change without a seed fails whenever its turn comes. */
  lemma SeedSpent(s: State, changes: seq<StakeChange>, at: seq<nat>, order: seq<nat>, n: nat)
    requires Invariant(s) && s.pool.lastUpdate == s.epoch && Holdings(s) <= U64_MAX && Affords(s, changes)
    requires Independent(s, changes, at) && Below(order, |changes|) && NoRepeats(order) && n < |order|
    requires SeedsLeft(s, at, order[..n]) && !SeedLeft(s, at[order[n]])
    ensures ExecuteAll(s, Pick(changes, order)).Err?
  {
    var front, c, i := order[..n], changes[order[n]], at[order[n]];
    var run := RunsInAnyOrder(s, changes, at, front);
    assert order[n] !in front;
    assert Executable(s, c, i) && LeftAlone(s, run[n], i);
    StillExecutable(s, run[n], c, i);
    NoSeedNoChange(run[n], c, i);
    SeedSpentAt(s, changes, order, n, run[n]);
  }

  lemma SeedSpentAt(s: State, changes: seq<StakeChange>, order: seq<nat>, n: nat, s1: State)
    requires Below(order, |changes|) && n < |order| && Leads(s, Pick(changes, order[..n]), s1)
    requires Execute(s1, changes[order[n]]).Err?
    ensures ExecuteAll(s, Pick(changes, order)).Err?
  {
    var picked := Pick(changes, order);
    assert picked[..n + 1][..n] == Pick(changes, order[..n]);
    FailureStays(s, picked, n + 1);
  }

  lemma {:induction false} FirstSpent(s: State, at: seq<nat>, order: seq<nat>) returns (n: nat)
    requires Below(order, |at|) && !SeedsLeft(s, at, order)
    ensures n < |order| && SeedsLeft(s, at, order[..n]) && !SeedLeft(s, at[order[n]])
    decreases |order|
  {
    var last := |order| - 1;
    if SeedsLeft(s, at, order[..last]) {
      n := last;
      assert forall k :: 0 <= k < last ==> order[..last][k] == order[k];
    } else {
      n := FirstSpent(s, at, order[..last]);
      assert order[..last][..n] == order[..n];
    }
  }

  /** So a selection executes exactly when every validator it moves has a seed left. */
  lemma ExecutesIffSeedsLeft(s: State, changes: seq<StakeChange>, at: seq<nat>, order: seq<nat>)
    requires Invariant(s) && s.pool.lastUpdate == s.epoch && Holdings(s) <= U64_MAX && Affords(s, changes)
    requires Independent(s, changes, at) && Below(order, |changes|) && NoRepeats(order)
    ensures ExecuteAll(s, Pick(changes, order)).Ok? <==> SeedsLeft(s, at, order)
  {
    if SeedsLeft(s, at, order) {
      var run := RunsInAnyOrder(s, changes, at, order);
    } else {
      var n := FirstSpent(s, at, order);
      SeedSpent(s, changes, at, order, n);
    }
  }

  // ---------------------------------------------------------------------------------------
  // The plan
  // ---------------------------------------------------------------------------------------

  function DecreaseCount(changes: seq<StakeChange>): nat {
    if changes == [] then 0 else (if changes[0].lamports > 0 then 0 else 1) + DecreaseCount(changes[1..])
  }

  /** Besides the cost of the increases, the reserve pays one rent for every decrease. */
  lemma {:induction false} SpendingSplits(b: Board, moves: seq<Move>)
    requires InBounds(b, moves)
    ensures Sum(Spending(Changes(b, moves), b.rent))
            == Sum(Costs(moves, b.rent)) + DecreaseCount(Changes(b, moves)) * b.rent
  {
    if moves != [] {
      SpendingSplits(b, moves[1..]);
      assert Changes(b, moves)[1..] == Changes(b, moves[1..]);
      assert Spending(Changes(b, moves), b.rent)[1..] == Spending(Changes(b, moves[1..]), b.rent);
      assert Costs(moves, b.rent)[1..] == Costs(moves[1..], b.rent);
      Times(DecreaseCount(Changes(b, moves[1..])), b.rent);
    }
  }

  /** Where the moves of a board happen on the list it was made from. */
  ghost function Places(s: State, changes: seq<StakeChange>): (r: seq<nat>)
    ensures |r| == |changes|
  {
    seq(|changes|, k requires 0 <= k < |changes| => IndexOf(s.validators, changes[k].vote))
  }

  lemma BoardEntry(s: State, b: Board, j: nat)
    requires Distinct(s.validators) && b.validators == Filter(s.validators, Actionable) && j < |b.validators|
    ensures Actionable(b.validators[j])
    ensures var i := IndexOf(s.validators, b.validators[j].vote);
            i < |s.validators| && s.validators[i] == b.validators[j]
  {
    FilterHasOnly(s.validators, Actionable);
    var e := b.validators[j];
    assert e in Filter(s.validators, Actionable);
    var k :| 0 <= k < |s.validators| && s.validators[k] == e;
    FindsTheOnlyEntry(s, k);
  }

  lemma MoveIsExecutable(s: State, b: Board, m: Move)
    requires Invariant(s) && s.pool.lastUpdate == s.epoch && Holdings(s) <= U64_MAX
    requires s.chain.MinimumDelegation() <= MINIMUM_CHANGE && b.rent == s.chain.stakeRent
    requires b.Valid() && b.validators == Filter(s.validators, Actionable) && SafeMove(b, m)
    requires AllInRange(s.validators) && (m.lamports > 0 ==> m.lamports <= s.reserve)
    ensures Executable(s, ChangeOf(b, m), IndexOf(s.validators, b.validators[m.index].vote))
  {
    BoardEntry(s, b, m.index);
    var i := IndexOf(s.validators, b.validators[m.index].vote);
    UpToDateMeansAccounted(s);
    SumUpdate(Balances(s.validators, s.accounts), i, 0);
    assert Agrees(s.validators[i], s.accounts);
  }

  lemma MovesAreIndependent(s: State, b: Board, moves: seq<Move>)
    requires Invariant(s) && s.pool.lastUpdate == s.epoch && Holdings(s) <= U64_MAX
    requires s.chain.MinimumDelegation() <= MINIMUM_CHANGE && b.rent == s.chain.stakeRent
    requires b.Valid() && b.validators == Filter(s.validators, Actionable)
    requires InBounds(b, moves) && OneEach(moves) && forall k :: 0 <= k < |moves| ==> SafeMove(b, moves[k])
    requires AllInRange(s.validators) && Sum(Costs(moves, b.rent)) <= s.reserve
    ensures Independent(s, Changes(b, moves), Places(s, Changes(b, moves)))
  {
    var changes := Changes(b, moves);
    var at := Places(s, changes);
    forall k | 0 <= k < |moves|
      ensures Executable(s, changes[k], at[k])
    {
      SumUpdate(Costs(moves, b.rent), k, 0);
      MoveIsExecutable(s, b, moves[k]);
    }
    FilterKeepsDistinct(s.validators, Actionable);
    forall k, l | 0 <= k < l < |moves|
      ensures at[k] != at[l]
    {
      BoardEntry(s, b, moves[k].index);
      BoardEntry(s, b, moves[l].index);
      assert moves[k].index != moves[l].index;
    }
  }

  /** The pool the plan is made for: up to date, with a list that can be written down and bounded holdings. */
  ghost predicate Ready(s: State) {
    && Invariant(s) && s.pool.lastUpdate == s.epoch && Holdings(s) <= U64_MAX && AllInRange(s.validators)
    && s.chain.MinimumDelegation() <= MINIMUM_CHANGE
  }

  /** The reserve holds its rent, the usable part, and a retained part that covers one rent per decrease. */
  ghost predicate Funded(s: State, plan: seq<StakeChange>, usable: nat, retained: nat) {
    && s.chain.stakeRent + usable + retained <= s.reserve
    && DecreaseCount(plan) * s.chain.stakeRent <= retained
  }

  lemma PlanIsIndependent(s: State, activated: map<Pubkey, nat>, distributable: nat, cap: nat, usable: nat,
                          retained: nat)
    requires Ready(s)
    requires Funded(s, Plan(s.validators, activated, distributable, cap, usable, s.chain.stakeRent), usable, retained)
    ensures var plan := Plan(s.validators, activated, distributable, cap, usable, s.chain.stakeRent);
            Independent(s, plan, Places(s, plan)) && Affords(s, plan)
  {
    if Filter(s.validators, Actionable) != [] {
      var b := BoardOf(s.validators, activated, distributable, cap, s.chain.stakeRent);
      var moves := Moves(b, usable);
      MovesAreSafe(b, usable);
      MovesAreFunded(b, usable);
      SpendingSplits(b, moves);
      MovesAreIndependent(s, b, moves);
    }
  }

  /**
   * Every selection of the planned changes passes every guard, in every order, and what happens is a
   * run of the pool, exactly when each validator it moves has a seed left for its transient account.
   */
  lemma PlanExecutesIff(s: State, activated: map<Pubkey, nat>, distributable: nat, cap: nat, usable: nat, retained: nat,
                        order: seq<nat>)
    requires Ready(s)
    requires var plan := Plan(s.validators, activated, distributable, cap, usable, s.chain.stakeRent);
             Funded(s, plan, usable, retained) && Below(order, |plan|) && NoRepeats(order)
    ensures var plan := Plan(s.validators, activated, distributable, cap, usable, s.chain.stakeRent);
            ExecuteAll(s, Pick(plan, order)).Ok? <==> SeedsLeft(s, Places(s, plan), order)
  {
    var plan := Plan(s.validators, activated, distributable, cap, usable, s.chain.stakeRent);
    PlanIsIndependent(s, activated, distributable, cap, usable, retained);
    ExecutesIffSeedsLeft(s, plan, Places(s, plan), order);
  }

  lemma PlanExecutes(s: State, activated: map<Pubkey, nat>, distributable: nat, cap: nat, usable: nat, retained: nat,
                     order: seq<nat>)
    returns (run: seq<State>)
    requires Ready(s)
    requires var plan := Plan(s.validators, activated, distributable, cap, usable, s.chain.stakeRent);
             && Funded(s, plan, usable, retained) && Below(order, |plan|) && NoRepeats(order)
             && SeedsLeft(s, Places(s, plan), order)
    ensures var plan := Plan(s.validators, activated, distributable, cap, usable, s.chain.stakeRent);
            Executed(s, plan, Places(s, plan), order, run) && s.chain.stakeRent <= run[|order|].reserve
  {
    var plan := Plan(s.validators, activated, distributable, cap, usable, s.chain.stakeRent);
    PlanIsIndependent(s, activated, distributable, cap, usable, retained);
    run := RunsInAnyOrder(s, plan, Places(s, plan), order);
    SumSelected(Spending(plan, s.chain.stakeRent), order);
  }
}
