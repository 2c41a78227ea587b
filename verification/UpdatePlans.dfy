/** The instructions that bring a whole pool up to date, a few validators at a time. */
module UpdatePlans {
  import opened Base
  import opened World
  import opened ListUpdate
  import opened Accounting
  import opened ChunkUpdate
  import opened Handlers

  const MAX_VALIDATORS_TO_UPDATE: nat := 4

  // ---------------------------------------------------------------------------------------
  // Building a plan
  // ---------------------------------------------------------------------------------------

  /** The accounts of every entry, in order. */
  function PairsOf(validators: seq<ValidatorStakeInfo>): (r: seq<AccountPair>)
    ensures |r| == |validators|
  {
    seq(|validators|, i requires 0 <= i < |validators| =>
      (validators[i].ValidatorAddress(), validators[i].TransientAddress()))
  }

  /** Update the entries `start .. start + len`. */
  function UpdateChunk(validators: seq<ValidatorStakeInfo>, len: nat, start: nat, noMerge: bool): Result<Instruction> {
    if start + len > |validators| then Err(InvalidInstructionData) else
    Ok(InUpdateList(start, PairsOf(validators[start..start + len]), noMerge))
  }

  predicate UpToDate(validators: seq<ValidatorStakeInfo>, epoch: nat) {
    forall e :: e in validators ==> e.lastUpdate >= epoch
  }

  /** The same, unless every one of them was updated in this epoch already. */
  function UpdateStaleChunk(validators: seq<ValidatorStakeInfo>, len: nat, start: nat, noMerge: bool,
                            epoch: nat): Result<Option<Instruction>> {
    if start + len > |validators| then Err(InvalidInstructionData) else
    if UpToDate(validators[start..start + len], epoch) then Ok(None)
    else
      var op :- UpdateChunk(validators, len, start, noMerge);
      Ok(Some(op))
  }

  /** The number of chunks of a list, and the length of chunk i. */
  function ChunkCount(n: nat): nat {
    (n + MAX_VALIDATORS_TO_UPDATE - 1) / MAX_VALIDATORS_TO_UPDATE
  }

  function ChunkLength(n: nat, i: nat): nat
    requires i < ChunkCount(n)
  {
    Min(MAX_VALIDATORS_TO_UPDATE, n - i * MAX_VALIDATORS_TO_UPDATE)
  }

  /** Every index lies in exactly one chunk, and no chunk is empty or reaches beyond the list. */
  lemma ChunksPartition(n: nat, j: nat)
    requires j < n
    ensures j / MAX_VALIDATORS_TO_UPDATE < ChunkCount(n)
    ensures forall i :: 0 <= i < ChunkCount(n) ==>
              && 0 < ChunkLength(n, i) && i * MAX_VALIDATORS_TO_UPDATE + ChunkLength(n, i) <= n
              && (i * MAX_VALIDATORS_TO_UPDATE <= j < i * MAX_VALIDATORS_TO_UPDATE + ChunkLength(n, i)
                  <==> i == j / MAX_VALIDATORS_TO_UPDATE)
  {
  }

  /** Update instructions for the first k chunks, with or without those that are up to date. */
  function PlanOf(validators: seq<ValidatorStakeInfo>, noMerge: bool, stale: Option<nat>, k: nat): (r: seq<Instruction>)
    requires k <= ChunkCount(|validators|)
  {
    if k == 0 then []
    else
      var start, len := (k - 1) * MAX_VALIDATORS_TO_UPDATE, ChunkLength(|validators|, k - 1);
      PlanOf(validators, noMerge, stale, k - 1)
      + match stale
        case None => [UpdateChunk(validators, len, start, noMerge).value]
        case Some(epoch) =>
          match UpdateStaleChunk(validators, len, start, noMerge, epoch).value
          case None => []
          case Some(op) => [op]
  }

  /** Update all entries. */
  function UpdateStakePool(validators: seq<ValidatorStakeInfo>, noMerge: bool): seq<Instruction> {
    PlanOf(validators, noMerge, None, ChunkCount(|validators|))
  }

  /** Update the chunks that hold an entry not updated in this epoch. */
  function UpdateStaleStakePool(validators: seq<ValidatorStakeInfo>, noMerge: bool, epoch: nat): seq<Instruction> {
    PlanOf(validators, noMerge, Some(epoch), ChunkCount(|validators|))
  }

  // ---------------------------------------------------------------------------------------
  // What a plan covers
  // ---------------------------------------------------------------------------------------

  /** An update that supplies entries of the list with their own accounts. */
  ghost predicate UpdatesOwn(op: Instruction, validators: seq<ValidatorStakeInfo>) {
    && op.InUpdateList? && op.start + |op.pairs| <= |validators|
    && (forall k :: 0 <= k < |op.pairs| ==> Matches(validators[op.start + k], op.pairs[k]))
  }

  ghost predicate Touches(op: Instruction, j: nat) {
    op.InUpdateList? && op.start <= j < op.start + |op.pairs|
  }

  ghost predicate Touched(ops: seq<Instruction>, j: nat) {
    exists k :: 0 <= k < |ops| && Touches(ops[k], j)
  }

  lemma ChunkUpdatesOwn(validators: seq<ValidatorStakeInfo>, len: nat, start: nat, noMerge: bool)
    requires start + len <= |validators|
    ensures var op := UpdateChunk(validators, len, start, noMerge).value;
            && UpdatesOwn(op, validators)
            && forall j: nat :: Touches(op, j) <==> start <= j < start + len
  {
  }

  /** Proper updates that touch each of the first n entries, but for those updated by `stale`. */
  ghost predicate Covers(plan: seq<Instruction>, validators: seq<ValidatorStakeInfo>, stale: Option<nat>, n: nat) {
    && (forall i {:trigger plan[i]} :: 0 <= i < |plan| ==> UpdatesOwn(plan[i], validators))
    && (forall j {:trigger Touched(plan, j)} :: 0 <= j < |validators| && j < n ==>
          Touched(plan, j) || (stale.Some? && validators[j].lastUpdate >= stale.value))
  }

  lemma CoversMore(front: seq<Instruction>, op: Instruction, validators: seq<ValidatorStakeInfo>, stale: Option<nat>,
                   n: nat, m: nat)
    requires Covers(front, validators, stale, n) && UpdatesOwn(op, validators)
    requires forall j: nat :: n <= j < m && j < |validators| ==> Touches(op, j)
    ensures Covers(front + [op], validators, stale, m)
  {
    var plan := front + [op];
    forall j | 0 <= j < |validators| && j < m
      ensures Touched(plan, j) || (stale.Some? && validators[j].lastUpdate >= stale.value)
    {
      if j >= n {
        assert Touches(plan[|front|], j);
      } else if Touched(front, j) {
        var i :| 0 <= i < |front| && Touches(front[i], j);
        assert Touches(plan[i], j);
      }
    }
  }

  lemma CoversFresh(front: seq<Instruction>, validators: seq<ValidatorStakeInfo>, epoch: nat, n: nat, len: nat)
    requires Covers(front, validators, Some(epoch), n) && n + len <= |validators|
    requires UpToDate(validators[n..n + len], epoch)
    ensures Covers(front, validators, Some(epoch), n + len)
  {
    forall j | 0 <= j < |validators| && j < n + len
      ensures Touched(front, j) || validators[j].lastUpdate >= epoch
    {
      if j >= n {
        assert validators[n..n + len][j - n] in validators[n..n + len];
      }
    }
  }

  /** The plan consists of proper updates and touches every entry that is not up to date. */
  lemma {:induction false} PlanCovers(validators: seq<ValidatorStakeInfo>, noMerge: bool, stale: Option<nat>, k: nat)
    requires k <= ChunkCount(|validators|)
    ensures Covers(PlanOf(validators, noMerge, stale, k), validators, stale,
                   Min(k * MAX_VALIDATORS_TO_UPDATE, |validators|))
  {
    if k > 0 {
      var start, len := (k - 1) * MAX_VALIDATORS_TO_UPDATE, ChunkLength(|validators|, k - 1);
      var front := PlanOf(validators, noMerge, stale, k - 1);
      PlanCovers(validators, noMerge, stale, k - 1);
      if stale.Some? && UpToDate(validators[start..start + len], stale.value) {
        CoversFresh(front, validators, stale.value, start, len);
        assert PlanOf(validators, noMerge, stale, k) == front;
      } else {
        ChunkUpdatesOwn(validators, len, start, noMerge);
        CoversMore(front, UpdateChunk(validators, len, start, noMerge).value, validators, stale, start, start + len);
      }
    }
  }

  /** The entries of chunk i, supplied with their own accounts; at least one of them is older than `stale`. */
  ghost predicate UpdatesChunk(op: Instruction, validators: seq<ValidatorStakeInfo>, noMerge: bool, stale: Option<nat>,
                               i: nat) {
    && UpdatesOwn(op, validators) && op.noMerge == noMerge && op.start == i * MAX_VALIDATORS_TO_UPDATE
    && |op.pairs| == Min(MAX_VALIDATORS_TO_UPDATE, |validators| - op.start)
    && (stale.Some? ==> exists j :: 0 <= j < |validators| && Touches(op, j) && validators[j].lastUpdate < stale.value)
  }

  /** Chunk i has an entry older than `stale`, if that is asked for. */
  ghost predicate Due(validators: seq<ValidatorStakeInfo>, stale: Option<nat>, start: nat, len: nat)
    requires start + len <= |validators|
  {
    stale.Some? ==> !UpToDate(validators[start..start + len], stale.value)
  }

  lemma DueIff(validators: seq<ValidatorStakeInfo>, stale: Option<nat>, start: nat, len: nat)
    requires start + len <= |validators|
    ensures Due(validators, stale, start, len) <==>
              (stale.Some? ==> exists j :: start <= j < start + len && validators[j].lastUpdate < stale.value)
  {
    var chunk := validators[start..start + len];
    if stale.Some? {
      forall j | start <= j < start + len
        ensures validators[j] in chunk
      {
        assert chunk[j - start] == validators[j];
      }
      if !UpToDate(chunk, stale.value) {
        var e :| e in chunk && e.lastUpdate < stale.value;
        var j :| 0 <= j < |chunk| && chunk[j] == e;
        assert validators[start + j] == e;
      }
    }
  }

  /** An update is known by where it starts, how far it goes, its mode, and that it supplies the right accounts. */
  lemma UpdateIsKnown(validators: seq<ValidatorStakeInfo>, len: nat, start: nat, noMerge: bool, op: Instruction)
    requires start + len <= |validators|
    ensures op == UpdateChunk(validators, len, start, noMerge).value <==>
              UpdatesOwn(op, validators) && op.noMerge == noMerge && op.start == start && |op.pairs| == len
  {
    ChunkUpdatesOwn(validators, len, start, noMerge);
    if UpdatesOwn(op, validators) && op.start == start && |op.pairs| == len {
      assert op.pairs == PairsOf(validators[start..start + len]);
    }
  }

  lemma ChunkOpIff(validators: seq<ValidatorStakeInfo>, noMerge: bool, stale: Option<nat>, i: nat, op: Instruction)
    requires i < ChunkCount(|validators|)
    ensures var start, len := i * MAX_VALIDATORS_TO_UPDATE, ChunkLength(|validators|, i);
            && start + len <= |validators|
            && (UpdatesChunk(op, validators, noMerge, stale, i) <==>
                  && op == UpdateChunk(validators, len, start, noMerge).value && Due(validators, stale, start, len))
  {
    var start, len := i * MAX_VALIDATORS_TO_UPDATE, ChunkLength(|validators|, i);
    DueIff(validators, stale, start, len);
    UpdateIsKnown(validators, len, start, noMerge, op);
    if UpdatesOwn(op, validators) && op.start == start && |op.pairs| == len {
      assert forall j: nat :: Touches(op, j) <==> start <= j < start + len;
    }
  }

  lemma PlanGrows(validators: seq<ValidatorStakeInfo>, noMerge: bool, stale: Option<nat>, i: nat)
    requires i < ChunkCount(|validators|)
    ensures var start, len := i * MAX_VALIDATORS_TO_UPDATE, ChunkLength(|validators|, i);
            && start + len <= |validators|
            && PlanOf(validators, noMerge, stale, i + 1)
               == PlanOf(validators, noMerge, stale, i)
                  + if !Due(validators, stale, start, len) then []
                    else [UpdateChunk(validators, len, start, noMerge).value]
  {
  }

  /** Some chunk before the k-th is due and updated by op. */
  ghost predicate UpdatesOneOf(op: Instruction, validators: seq<ValidatorStakeInfo>, noMerge: bool, stale: Option<nat>,
                               k: nat) {
    exists i: nat :: i < k && UpdatesChunk(op, validators, noMerge, stale, i)
  }

  /** The instructions are the updates of the chunks before the k-th that are due. */
  ghost predicate Exactly(plan: seq<Instruction>, validators: seq<ValidatorStakeInfo>, noMerge: bool,
                          stale: Option<nat>, k: nat) {
    |plan| <= k && forall op :: op in plan <==> UpdatesOneOf(op, validators, noMerge, stale, k)
  }

  lemma OneMore(op: Instruction, validators: seq<ValidatorStakeInfo>, noMerge: bool, stale: Option<nat>, k: nat)
    ensures UpdatesOneOf(op, validators, noMerge, stale, k + 1) <==>
              UpdatesOneOf(op, validators, noMerge, stale, k) || UpdatesChunk(op, validators, noMerge, stale, k)
  {
  }

  lemma ExactlyOn(front: seq<Instruction>, validators: seq<ValidatorStakeInfo>, noMerge: bool, stale: Option<nat>,
                  i: nat, added: seq<Instruction>)
    requires i < ChunkCount(|validators|) && Exactly(front, validators, noMerge, stale, i) && |added| <= 1
    requires forall op :: op in added <==> UpdatesChunk(op, validators, noMerge, stale, i)
    ensures Exactly(front + added, validators, noMerge, stale, i + 1)
  {
    forall op
      ensures op in front + added <==> UpdatesOneOf(op, validators, noMerge, stale, i + 1)
    {
      OneMore(op, validators, noMerge, stale, i);
    }
  }

  /** The plan has one update for each chunk, or for each with an entry that is not up to date, and nothing else. */
  lemma {:induction false} PlanIsExactly(validators: seq<ValidatorStakeInfo>, noMerge: bool, stale: Option<nat>, k: nat)
    requires k <= ChunkCount(|validators|)
    ensures Exactly(PlanOf(validators, noMerge, stale, k), validators, noMerge, stale, k)
  {
    if k > 0 {
      var i, start, len := k - 1, (k - 1) * MAX_VALIDATORS_TO_UPDATE, ChunkLength(|validators|, k - 1);
      PlanIsExactly(validators, noMerge, stale, i);
      PlanGrows(validators, noMerge, stale, i);
      var added :=
        if !Due(validators, stale, start, len) then [] else [UpdateChunk(validators, len, start, noMerge).value];
      forall op
        ensures op in added <==> UpdatesChunk(op, validators, noMerge, stale, i)
      {
        ChunkOpIff(validators, noMerge, stale, i, op);
      }
      ExactlyOn(PlanOf(validators, noMerge, stale, i), validators, noMerge, stale, i, added);
    }
  }

  // ---------------------------------------------------------------------------------------
  // Running a plan
  // ---------------------------------------------------------------------------------------

  function RunAll(s: State, ops: seq<Instruction>): Result<State>
    decreases |ops|
  {
    if ops == [] then Ok(s)
    else
      var s1 :- Apply(s, ops[0]);
      RunAll(s1, ops[1..])
  }

  /** Where the run from s to s' left entry j. */
  ghost predicate Brought(s: State, s': State, j: nat) {
    && j < |s.validators| && |s'.validators| == |s.validators| && s'.epoch == s.epoch
    && SameIdentity(s.validators[j], s'.validators[j])
    && (s'.validators[j].lastUpdate == s.validators[j].lastUpdate || s'.validators[j].lastUpdate == s.epoch)
  }

  lemma UpdateRuns(s: State, op: Instruction) returns (s': State)
    requires Invariant(s) && UpdatesOwn(op, s.validators)
    ensures Apply(s, op) == Ok(s') && Invariant(s') && Holdings(s') == Holdings(s)
    ensures |s'.validators| == |s.validators| && s'.epoch == s.epoch
    ensures forall j :: 0 <= j < |s.validators| ==> Brought(s, s', j)
    ensures forall j :: 0 <= j < |s.validators| && Touches(op, j) ==> s'.validators[j].lastUpdate == s.epoch
  {
    s' := RefreshChunk(s, op.start, op.pairs, op.noMerge);
    RefreshChunkConserves(s, op.start, op.pairs, op.noMerge);
    RefreshChunkKeepsInvariant(s, op.start, op.pairs, op.noMerge);
    forall j | 0 <= j < |s.validators|
      ensures Brought(s, s', j)
      ensures Touches(op, j) ==> s'.validators[j].lastUpdate == s.epoch
    {
      assert Tracked(s, s', j, Covered(s, op.start, op.pairs, |op.pairs|, j));
      if Touches(op, j) {
        assert Matches(s.validators[op.start + (j - op.start)], op.pairs[j - op.start]);
      }
    }
  }

  lemma StillUpdatesOwn(s: State, s1: State, op: Instruction)
    requires UpdatesOwn(op, s.validators) && |s1.validators| == |s.validators|
    requires forall j :: 0 <= j < |s.validators| ==> Brought(s, s1, j)
    ensures UpdatesOwn(op, s1.validators)
  {
    forall k | 0 <= k < |op.pairs|
      ensures Matches(s1.validators[op.start + k], op.pairs[k])
    {
      assert Brought(s, s1, op.start + k) && Matches(s.validators[op.start + k], op.pairs[k]);
    }
  }

  lemma {:induction false} UpdatesRun(s: State, ops: seq<Instruction>) returns (s': State)
    requires Invariant(s) && forall i :: 0 <= i < |ops| ==> UpdatesOwn(ops[i], s.validators)
    ensures RunAll(s, ops) == Ok(s') && Invariant(s') && Holdings(s') == Holdings(s)
    ensures |s'.validators| == |s.validators| && s'.epoch == s.epoch
    ensures forall j :: 0 <= j < |s.validators| ==> Brought(s, s', j)
    ensures forall j :: 0 <= j < |s.validators| && Touched(ops, j) ==> s'.validators[j].lastUpdate == s.epoch
    decreases |ops|
  {
    if ops == [] {
      s' := s;
    } else {
      var s1 := UpdateRuns(s, ops[0]);
      forall i | 0 <= i < |ops[1..]|
        ensures UpdatesOwn(ops[1..][i], s1.validators)
      {
        StillUpdatesOwn(s, s1, ops[i + 1]);
      }
      s' := UpdatesRun(s1, ops[1..]);
      forall j | 0 <= j < |s.validators|
        ensures Brought(s, s', j)
        ensures Touched(ops, j) ==> s'.validators[j].lastUpdate == s.epoch
      {
        assert Brought(s, s1, j) && Brought(s1, s', j);
        if Touched(ops, j) && !Touches(ops[0], j) {
          var k :| 0 <= k < |ops| && Touches(ops[k], j);
          assert Touches(ops[1..][k - 1], j);
        }
      }
    }
  }

  /** With every entry fresh the balance update has no cause to find the list out of date. */
  lemma {:induction false} FreshListTotals(validators: seq<ValidatorStakeInfo>, epoch: nat, sum: nat)
    requires AllFresh(validators, epoch)
    ensures TotalStake(validators, epoch, sum).Ok? || TotalStake(validators, epoch, sum) == Err(CalculationFailure)
  {
    if validators != [] {
      if validators[0].Lamports() <= U64_MAX && sum + validators[0].Lamports() <= U64_MAX {
        FreshListTotals(validators[1..], epoch, sum + validators[0].Lamports());
      }
    }
  }

  /** The instructions of the plan and no others, in any order, each at least once. */
  ghost predicate Arranges(ops: seq<Instruction>, plan: seq<Instruction>) {
    && (forall i :: 0 <= i < |ops| ==> ops[i] in plan)
    && (forall i :: 0 <= i < |plan| ==> plan[i] in ops)
  }

  /**
   * Either plan, run in any order within the epoch, leaves every entry fresh if the stake program
   * carries out the merges it asks for, so that the balance update that follows cannot find the list
   * out of date.
   */
  lemma PlanRefreshesAll(s: State, noMerge: bool, staleOnly: bool, ops: seq<Instruction>, feeAccountValid: bool)
    returns (s': State)
    requires Invariant(s)
    requires Arranges(ops, if staleOnly then UpdateStaleStakePool(s.validators, noMerge, s.epoch)
                           else UpdateStakePool(s.validators, noMerge))
    ensures RunAll(s, ops) == Ok(s') && Invariant(s') && Holdings(s') == Holdings(s)
    ensures AllFresh(s'.validators, s'.epoch)
    ensures UpdateBalance(s', feeAccountValid).Ok? || UpdateBalance(s', feeAccountValid) == Err(CalculationFailure)
  {
    var stale := if staleOnly then Some(s.epoch) else None;
    var n := ChunkCount(|s.validators|);
    var plan := PlanOf(s.validators, noMerge, stale, n);
    PlanCovers(s.validators, noMerge, stale, n);
    ArrangedUpdatesOwn(plan, ops, s.validators, stale);
    s' := UpdatesRun(s, ops);
    forall j | 0 <= j < |s.validators|
      ensures s'.validators[j].lastUpdate == s.epoch
    {
      EntryInOrder(s, j);
      assert Brought(s, s', j);
      if Touched(plan, j) {
        TouchedIn(plan, ops, j);
      }
    }
    FreshBalance(s', feeAccountValid);
  }

  lemma ArrangedUpdatesOwn(plan: seq<Instruction>, ops: seq<Instruction>, validators: seq<ValidatorStakeInfo>,
                           stale: Option<nat>)
    requires Arranges(ops, plan) && Covers(plan, validators, stale, |validators|)
    ensures forall i :: 0 <= i < |ops| ==> UpdatesOwn(ops[i], validators)
  {
    forall i | 0 <= i < |ops|
      ensures UpdatesOwn(ops[i], validators)
    {
      assert ops[i] in plan;
      var k :| 0 <= k < |plan| && plan[k] == ops[i];
    }
  }

  lemma TouchedIn(plan: seq<Instruction>, ops: seq<Instruction>, j: nat)
    requires Arranges(ops, plan) && Touched(plan, j)
    ensures Touched(ops, j)
  {
    var k :| 0 <= k < |plan| && Touches(plan[k], j);
    assert plan[k] in ops;
    var i :| 0 <= i < |ops| && ops[i] == plan[k];
    assert Touches(ops[i], j);
  }

  lemma FreshBalance(s: State, feeAccountValid: bool)
    requires AllFresh(s.validators, s.epoch)
    ensures UpdateBalance(s, feeAccountValid).Ok? || UpdateBalance(s, feeAccountValid) == Err(CalculationFailure)
  {
    if s.chain.reserveRent <= s.reserve {
      FreshListTotals(s.validators, s.epoch, s.reserve - s.chain.reserveRent);
    }
  }
}
