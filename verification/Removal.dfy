/** Removing a validator: irreversible, complete after one merging update, and without losing lamports. */
module Removal {
  import opened Base
  import Pricing
  import opened Seqs
  import opened World
  import opened ListUpdate
  import opened Accounting
  import opened ChunkUpdate
  import opened Handlers
  import opened Steps

  ghost predicate RetiredVote(s: State, vote: Pubkey, since: nat) {
    exists e :: e in s.validators && e.vote == vote && Retired(e, s.accounts, since)
  }

  ghost predicate ReadyVote(s: State, vote: Pubkey) {
    exists e :: e in s.validators && e.vote == vote && e.status == ReadyForRemoval
  }

  ghost predicate Listed(s: State, vote: Pubkey) {
    exists e :: e in s.validators && e.vote == vote
  }

  // ---------------------------------------------------------------------------------------
  // Instructions leave an entry marked for removal alone
  // ---------------------------------------------------------------------------------------

  /** A withdrawal edits one active entry and one of its own accounts. */
  ghost predicate EditsOnly(s: State, r: State, k: nat) {
    && k < |s.validators| && k < |r.validators|
    && s.validators[k].status == Active && r.validators[k].vote == s.validators[k].vote
    && r.validators == s.validators[k := r.validators[k]]
    && OnlyOwned(s.accounts, r.accounts, s.validators[k], r.validators[k])
  }

  lemma TakeFromAccountEdits(s: State, k: nat, q: Redemption, required: nat, from: WithdrawSource, taken: Taken)
    requires k < |s.validators| && s.validators[k].status == Active
    requires var a := s.validators[k].AddressFor(from != FromActive);
             a in s.accounts && s.accounts[a].state.Delegated?
    requires TakeFromAccount(s, k, q, required, from) == Ok(taken)
    ensures EditsOnly(s, taken.0, k)
  {
  }

  lemma TakeWholeAccountEdits(s: State, k: nat, q: Redemption, perToken: nat, taken: Taken)
    requires k < |s.validators| && s.validators[k].status == Active && s.validators[k].ValidatorAddress() in s.accounts
    requires TakeWholeAccount(s, k, q, perToken) == Ok(taken)
    ensures EditsOnly(s, taken.0, k)
  {
  }

  lemma TakeStakeEdits(s: State, source: Source, q: Redemption, taken: Taken)
    requires TakeStake(s, source, q) == Ok(taken)
    ensures source == Reserve ==> taken.0.validators == s.validators && taken.0.accounts == s.accounts
    ensures source.Account? ==> !source.address.EphemeralStake? && Find(s, source.address.vote).Ok?
                                && EditsOnly(s, taken.0, Find(s, source.address.vote).value)
  {
    if source.Account? {
      var k := Find(s, source.address.vote).value;
      var required := SatAdd(s.accounts[source.address].rent, s.chain.MinimumDelegation());
      var perToken := Pricing.LamportsPerToken(s.pool.totalLamports, s.pool.tokenSupply).value;
      var limit := SatAdd(required, perToken);
      var hasActive, hasTransient := HasActive(s.validators, limit), HasTransient(s.validators, limit);
      var (from, expected) := ChooseSource(s.validators[k], hasActive, hasTransient);
      if from == ValidatorRemoval {
        TakeWholeAccountEdits(s, k, q, perToken, taken);
      } else {
        TakeFromAccountEdits(s, k, q, required, from, taken);
      }
    }
  }

  lemma TakeStakeLeavesAlone(s: State, source: Source, q: Redemption, taken: Taken, i: nat)
    requires Distinct(s.validators) && i < |s.validators| && s.validators[i].status != Active
    requires TakeStake(s, source, q) == Ok(taken)
    ensures LeftAlone(s, taken.0, i)
  {
    TakeStakeEdits(s, source, q, taken);
    if source.Account? {
      var k := Find(s, source.address.vote).value;
      OtherEntryLeftAlone(s, taken.0, i, k, taken.0.validators[k]);
    }
  }

  lemma DepositStakeLeavesAlone(s: State, vote: Pubkey, lamports: nat, delegated: nat, minimumOut: Option<nat>,
                                s': State, i: nat)
    requires Distinct(s.validators) && i < |s.validators| && s.validators[i].status != Active
    requires DepositStake(s, vote, lamports, delegated, minimumOut) == Ok(s')
    ensures LeftAlone(s, s', i)
  {
    var k, x := DepositStakeEffect(s, vote, lamports, delegated, minimumOut, s');
    OtherEntryLeftAlone(s, s', i, k, s.validators[k].(active := x.lamports));
  }

  lemma IncreaseLeavesAlone(s: State, vote: Pubkey, lamports: u64, seed: nat, ephemeral: Option<nat>, s': State, i: nat)
    requires Distinct(s.validators) && i < |s.validators| && s.validators[i].status != Active
    requires IncreaseValidatorStake(s, vote, lamports, seed, ephemeral) == Ok(s')
    ensures LeftAlone(s, s', i)
  {
    var k, total, y := IncreaseEffect(s, vote, lamports, seed, ephemeral, s');
    OtherEntryLeftAlone(s, s', i, k, s.validators[k].(transient := s.validators[k].transient + total,
                                                      transientSeed := seed));
  }

  lemma DecreaseLeavesAlone(s: State, vote: Pubkey, lamports: u64, seed: nat, ephemeral: Option<nat>, fundRent: bool,
                            s': State, i: nat)
    requires Distinct(s.validators) && i < |s.validators| && s.validators[i].status != Active
    requires DecreaseValidatorStake(s, vote, lamports, seed, ephemeral, fundRent) == Ok(s')
    ensures LeftAlone(s, s', i)
  {
    var k, rent, x, y := DecreaseEffect(s, vote, lamports, seed, ephemeral, fundRent, s');
    OtherEntryLeftAlone(s, s', i, k,
      s.validators[k].(active := s.validators[k].active - lamports, transient := y.lamports, transientSeed := seed));
  }

  lemma RemoveLeavesAlone(s: State, vote: Pubkey, s': State, i: nat)
    requires Distinct(s.validators) && i < |s.validators| && s.validators[i].status != Active
    requires RemoveValidator(s, vote) == Ok(s')
    ensures LeftAlone(s, s', i)
  {
    var k := Find(s, vote).value;
    RemoveEffect(s, vote, k, s');
    OtherEntryLeftAlone(s, s', i, k, s'.validators[k]);
  }

  lemma WithdrawStakeLeavesAlone(s: State, source: Source, tokens: nat, minimumOut: Option<nat>, feeWaived: bool,
                                 s': State, i: nat)
    requires Distinct(s.validators) && i < |s.validators| && s.validators[i].status != Active
    requires WithdrawStake(s, source, tokens, minimumOut, feeWaived) == Ok(s')
    ensures LeftAlone(s, s', i)
  {
    var q, taken := WithdrawStakeDebits(s, source, tokens, minimumOut, feeWaived, s');
    TakeStakeLeavesAlone(s, source, q, taken, i);
  }

  /** No instruction but a list update or a cleanup touches an entry that is not active. */
  lemma InstructionLeavesAlone(s: State, op: Instruction, s': State, i: nat)
    requires Distinct(s.validators) && i < |s.validators| && s.validators[i].status != Active
    requires Apply(s, op) == Ok(s') && !op.InUpdateList? && !op.InCleanup?
    ensures LeftAlone(s, s', i)
  {
    match op
    case InDepositStake(vote, lamports, delegated, minimumOut) =>
      DepositStakeLeavesAlone(s, vote, lamports, delegated, minimumOut, s', i);
    case InWithdrawStake(source, tokens, minimumOut, feeWaived) =>
      WithdrawStakeLeavesAlone(s, source, tokens, minimumOut, feeWaived, s', i);
    case InIncrease(vote, lamports, seed, ephemeral) =>
      IncreaseLeavesAlone(s, vote, lamports, seed, ephemeral, s', i);
    case InDecrease(vote, lamports, seed, ephemeral, fundRent) =>
      DecreaseLeavesAlone(s, vote, lamports, seed, ephemeral, fundRent, s', i);
    case InRemoveValidator(vote) => RemoveLeavesAlone(s, vote, s', i);
    case InAddValidator(vote, seed) => AddLeavesAlone(s, vote, seed, s', i);
    case _ =>
  }

  lemma AddLeavesAlone(s: State, vote: Pubkey, seed: nat, s': State, i: nat)
    requires i < |s.validators| && AddValidator(s, vote, seed) == Ok(s')
    ensures LeftAlone(s, s', i)
  {
    assert s.validators[i].vote != vote;
  }

  // ---------------------------------------------------------------------------------------
  // The rank of an entry never rises
  // ---------------------------------------------------------------------------------------

  lemma SameVoteSameIndex(validators: seq<ValidatorStakeInfo>, i: nat, j: nat)
    requires Distinct(validators) && i < |validators| && j < |validators| && validators[i].vote == validators[j].vote
    ensures i == j
  {
  }

  lemma UpdateNeverRevives(s: State, start: nat, pairs: seq<AccountPair>, noMerge: bool, s': State, i: nat, j: nat)
    requires Invariant(s) && Distinct(s'.validators) && UpdateList(s, start, pairs, noMerge) == Ok(s')
    requires i < |s.validators| && j < |s'.validators| && s'.validators[j].vote == s.validators[i].vote
    ensures s'.validators[j].status.Rank() <= s.validators[i].status.Rank()
  {
    RefreshChunkKeepsInvariant(s, start, pairs, noMerge);
    RefreshChunkConserves(s, start, pairs, noMerge);
    assert Tracked(s, s', i, Covered(s, start, pairs, |pairs|, i));
    SameVoteSameIndex(s'.validators, i, j);
  }

  lemma CleanupNeverRevives(s: State, i: nat, j: nat)
    requires Invariant(s) && i < |s.validators| && j < |Cleanup(s).validators|
    requires Cleanup(s).validators[j].vote == s.validators[i].vote
    ensures Cleanup(s).validators[j].status.Rank() <= s.validators[i].status.Rank()
  {
    FilterHasOnly(s.validators, Kept);
    assert Cleanup(s).validators[j] in s.validators;
    var k :| 0 <= k < |s.validators| && s.validators[k] == Cleanup(s).validators[j];
    SameVoteSameIndex(s.validators, i, k);
  }

  /** A marked entry only moves down when the list is updated, and stays as it is otherwise. */
  lemma InstructionNeverRevives(s: State, op: Instruction, s': State, i: nat, j: nat)
    requires Invariant(s) && Distinct(s'.validators) && Apply(s, op) == Ok(s')
    requires i < |s.validators| && j < |s'.validators| && s'.validators[j].vote == s.validators[i].vote
    ensures s'.validators[j].status.Rank() <= s.validators[i].status.Rank()
  {
    if op.InUpdateList? {
      UpdateNeverRevives(s, op.start, op.pairs, op.noMerge, s', i, j);
    } else if op.InCleanup? {
      CleanupNeverRevives(s, i, j);
    } else {
      if s.validators[i].status != Active {
        InstructionLeavesAlone(s, op, s', i);
      }
      LeftAloneOrActive(s, s', i, j);
    }
  }

  lemma LeftAloneOrActive(s: State, s': State, i: nat, j: nat)
    requires Distinct(s'.validators) && i < |s.validators| && j < |s'.validators|
    requires s'.validators[j].vote == s.validators[i].vote
    requires s.validators[i].status == Active || LeftAlone(s, s', i)
    ensures s'.validators[j].status.Rank() <= s.validators[i].status.Rank()
  {
    if s.validators[i].status != Active {
      SameVoteSameIndex(s'.validators, i, j);
    }
  }

  lemma StepNeverRevives(s: State, s': State, e: ValidatorStakeInfo, e': ValidatorStakeInfo)
    requires Invariant(s) && Distinct(s'.validators) && Step(s, s')
    requires e in s.validators && e' in s'.validators && e'.vote == e.vote
    ensures e'.status.Rank() <= e.status.Rank()
  {
    var i :| 0 <= i < |s.validators| && s.validators[i] == e;
    var j :| 0 <= j < |s'.validators| && s'.validators[j] == e';
    if op :| Apply(s, op) == Ok(s') {
      InstructionNeverRevives(s, op, s', i, j);
    } else {
      SameVoteSameIndex(s.validators, i, j);
    }
  }

  lemma RankStepAt(run: seq<State>, i: nat, e: ValidatorStakeInfo, e': ValidatorStakeInfo)
    requires Run(run) && i + 1 < |run| && Invariant(run[i]) && Distinct(run[i + 1].validators)
    requires e in run[i].validators && e' in run[i + 1].validators && e'.vote == e.vote
    ensures e'.status.Rank() <= e.status.Rank()
  {
    assert StepAt(run, i);
    StepNeverRevives(run[i], run[i + 1], e, e');
  }

  /** Along a run that keeps an entry listed, the entry only ever moves towards removal. */
  lemma {:induction false} RankNeverRises(run: seq<State>, entries: seq<ValidatorStakeInfo>, i: nat, j: nat)
    requires Run(run) && Invariant(run[0]) && |entries| == |run| && i <= j < |run|
    requires forall k :: 0 <= k < |run| ==> entries[k] in run[k].validators && entries[k].vote == entries[0].vote
    ensures entries[j].status.Rank() <= entries[i].status.Rank()
  {
    if i < j {
      RankNeverRises(run, entries, i, j - 1);
      RunKeeps(run, j - 1);
      RunKeeps(run, j);
      RankStepAt(run, j - 1, entries[j - 1], entries[j]);
    }
  }

  // ---------------------------------------------------------------------------------------
  // An entry marked for removal stays retired until it is ready
  // ---------------------------------------------------------------------------------------

  lemma LeftAloneKeepsRetired(s: State, s': State, i: nat, since: nat)
    requires LeftAlone(s, s', i) && Retired(s.validators[i], s.accounts, since)
    ensures Retired(s'.validators[i], s'.accounts, since)
  {
  }

  /** Removing a validator retires its entry as of the current epoch. */
  lemma RemoveRetires(s: State, vote: Pubkey, s': State)
    requires Invariant(s) && RemoveValidator(s, vote) == Ok(s')
    ensures RetiredVote(s', vote, s.epoch)
  {
    var i := Find(s, vote).value;
    RemoveEffect(s, vote, i, s');
    EntryInOrder(s, i);
    var e' := s'.validators[i];
    assert Owns(e', e'.ValidatorAddress()) && Owns(e', e'.TransientAddress());
    assert e' in s'.validators && Retired(e', s'.accounts, s.epoch);
  }

  lemma InstructionKeepsRetired(s: State, op: Instruction, s': State, i: nat, since: nat)
    requires Distinct(s.validators) && i < |s.validators| && since < EPOCH_MAX && Apply(s, op) == Ok(s')
    requires Retired(s.validators[i], s.accounts, since) && s.validators[i].status != ReadyForRemoval
    ensures RetiredVote(s', s.validators[i].vote, since)
  {
    if op.InUpdateList? {
      RefreshChunkCompletes(s, op.start, op.pairs, op.noMerge, i, since);
      RefreshChunkConserves(s, op.start, op.pairs, op.noMerge);
      assert Tracked(s, s', i, Covered(s, op.start, op.pairs, |op.pairs|, i));
      assert s'.validators[i] in s'.validators;
    } else if op.InCleanup? {
      FilterHasAll(s.validators, Kept, i);
    } else {
      InstructionLeavesAlone(s, op, s', i);
      LeftAloneKeepsRetired(s, s', i, since);
      assert s'.validators[i] in s'.validators;
    }
  }

  lemma StepKeepsRetired(s: State, s': State, vote: Pubkey, since: nat)
    requires Invariant(s) && Step(s, s') && since < EPOCH_MAX
    requires RetiredVote(s, vote, since) && !ReadyVote(s, vote)
    ensures RetiredVote(s', vote, since)
  {
    var e :| e in s.validators && e.vote == vote && Retired(e, s.accounts, since);
    var i :| 0 <= i < |s.validators| && s.validators[i] == e;
    if op :| Apply(s, op) == Ok(s') {
      InstructionKeepsRetired(s, op, s', i, since);
    } else {
      assert e in s'.validators && Retired(e, s'.accounts, since);
    }
  }

  // ---------------------------------------------------------------------------------------
  // Completion
  // ---------------------------------------------------------------------------------------

  /** An entry that is ready has no accounts left, so nothing of it is anything but on its way out. */
  lemma ReadyIsRetired(s: State, e: ValidatorStakeInfo, since: nat)
    requires Invariant(s) && e in s.validators && e.status == ReadyForRemoval
    ensures Retired(e, s.accounts, since)
  {
    var i :| 0 <= i < |s.validators| && s.validators[i] == e;
    EntryInOrder(s, i);
  }

  lemma StepKeepsReady(s: State, s': State, vote: Pubkey, since: nat)
    requires Invariant(s) && Invariant(s') && Step(s, s') && ReadyVote(s, vote) && Listed(s', vote)
    ensures RetiredVote(s', vote, since)
  {
    var e :| e in s.validators && e.vote == vote && e.status == ReadyForRemoval;
    var e' :| e' in s'.validators && e'.vote == vote;
    StepNeverRevives(s, s', e, e');
    ReadyIsRetired(s', e', since);
  }

  lemma RetiredStepAt(run: seq<State>, i: nat, vote: Pubkey, since: nat)
    requires Run(run) && i + 1 < |run| && Invariant(run[i]) && Invariant(run[i + 1]) && since < EPOCH_MAX
    requires RetiredVote(run[i], vote, since) && Listed(run[i + 1], vote)
    ensures RetiredVote(run[i + 1], vote, since)
  {
    assert StepAt(run, i);
    if ReadyVote(run[i], vote) {
      StepKeepsReady(run[i], run[i + 1], vote, since);
    } else {
      StepKeepsRetired(run[i], run[i + 1], vote, since);
    }
  }

  /** As long as the vote account stays listed, its entry stays retired, whatever happens. */
  lemma {:induction false} RetiredAlongRun(run: seq<State>, vote: Pubkey, n: nat)
    requires Run(run) && Invariant(run[0]) && 0 < n < |run|
    requires RemoveValidator(run[0], vote) == Ok(run[1])
    requires forall k :: 1 <= k <= n ==> Listed(run[k], vote)
    ensures RetiredVote(run[n], vote, run[0].epoch)
  {
    if n == 1 {
      RemoveRetires(run[0], vote, run[1]);
    } else {
      RetiredAlongRun(run, vote, n - 1);
      RunKeeps(run, n - 1);
      RunKeeps(run, n);
      RetiredStepAt(run, n - 1, vote, run[0].epoch);
    }
  }

  /**
   * After a removal, and whatever happened since to the listed entry, a successful merging update of a
   * later epoch that covers it leaves it ready for removal with all its lamports in the reserve.
   */
  lemma RemovalCompletes(run: seq<State>, vote: Pubkey, start: nat, pairs: seq<AccountPair>, i: nat, s': State)
    requires Run(run) && Invariant(run[0]) && |run| > 1
    requires RemoveValidator(run[0], vote) == Ok(run[1])
    requires forall k :: 1 <= k < |run| ==> Listed(run[k], vote)
    requires var s := run[|run| - 1];
             && run[0].epoch < s.epoch
             && UpdateList(s, start, pairs, false) == Ok(s')
             && i < |s.validators| && s.validators[i].vote == vote && Covered(s, start, pairs, |pairs|, i)
    ensures Completed(run[|run| - 1], s', i) && Holdings(s') == Holdings(run[|run| - 1])
  {
    var n := |run| - 1;
    var s := run[n];
    RunKeeps(run, n);
    RetiredAlongRun(run, vote, n);
    var e :| e in s.validators && e.vote == vote && Retired(e, s.accounts, run[0].epoch);
    assert e == s.validators[i];
    RunKeeps(run, 0);
    RefreshChunkCompletes(s, start, pairs, false, i, run[0].epoch);
    RefreshChunkConserves(s, start, pairs, false);
  }
}
