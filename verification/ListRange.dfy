/** Every entry of a reachable list fits its 73-byte record. */
module ListRange {
  import opened Base
  import Pricing
  import opened Sums
  import opened Seqs
  import opened World
  import opened Bytes
  import opened ListUpdate
  import opened Accounting
  import opened ChunkUpdate
  import opened Handlers
  import opened Steps

  ghost predicate AllInRange(validators: seq<ValidatorStakeInfo>) {
    forall i {:trigger validators[i]} :: 0 <= i < |validators| ==> InRange(validators[i])
  }

  // ---------------------------------------------------------------------------------------
  // Keys and seeds
  // ---------------------------------------------------------------------------------------

  /** The fields that name an entry and its accounts fit. */
  ghost predicate Named(e: ValidatorStakeInfo) {
    Fits(e.transientSeed, WORD) && Fits(e.unused, HALF) && Fits(e.validatorSeed, HALF) && Fits(e.vote, KEY)
  }

  ghost predicate AllNamed(validators: seq<ValidatorStakeInfo>) {
    forall i {:trigger validators[i]} :: 0 <= i < |validators| ==> Named(validators[i])
  }

  lemma ChunkKeepsNames(s: State, start: nat, pairs: seq<AccountPair>, noMerge: bool)
    requires Distinct(s.validators) && start + |pairs| <= |s.validators| && AllNamed(s.validators)
    ensures AllNamed(RefreshChunk(s, start, pairs, noMerge).validators)
  {
    RefreshChunkConserves(s, start, pairs, noMerge);
    var r := RefreshChunk(s, start, pairs, noMerge);
    forall i | 0 <= i < |r.validators|
      ensures Named(r.validators[i])
    {
      assert Tracked(s, r, i, Covered(s, start, pairs, |pairs|, i));
    }
  }

  lemma FilterKeepsNames(validators: seq<ValidatorStakeInfo>)
    requires AllNamed(validators)
    ensures AllNamed(Filter(validators, Kept))
  {
    FilterHasOnly(validators, Kept);
    var kept := Filter(validators, Kept);
    forall i | 0 <= i < |kept|
      ensures Named(kept[i])
    {
      assert kept[i] in validators;
    }
  }

  lemma TakeFromEntryKeepsNames(s: State, i: nat, a: Address, q: Redemption, required: nat, perToken: nat,
                                choice: (WithdrawSource, Address), taken: Taken)
    requires AllNamed(s.validators) && i < |s.validators| && a in s.accounts && s.accounts[a].state.Delegated?
    requires choice.1 == s.validators[i].AddressFor(choice.0 == FromTransient)
    requires TakeFromEntry(s, i, a, q, required, perToken, choice) == Ok(taken)
    ensures AllNamed(taken.0.validators)
  {
  }

  lemma TakeStakeKeepsNames(s: State, source: Source, q: Redemption, taken: Taken)
    requires AllNamed(s.validators) && TakeStake(s, source, q) == Ok(taken)
    ensures AllNamed(taken.0.validators)
  {
    if source.Account? {
      var i := Find(s, source.address.vote).value;
      var required := SatAdd(s.accounts[source.address].rent, s.chain.MinimumDelegation());
      var perToken := Pricing.LamportsPerToken(s.pool.totalLamports, s.pool.tokenSupply).value;
      var limit := SatAdd(required, perToken);
      var choice := ChooseSource(s.validators[i], HasActive(s.validators, limit), HasTransient(s.validators, limit));
      TakeFromEntryKeepsNames(s, i, source.address, q, required, perToken, choice, taken);
    }
  }

  lemma IncreaseKeepsNames(s: State, vote: Pubkey, lamports: u64, seed: u64, ephemeral: Option<nat>, s': State)
    requires AllNamed(s.validators) && IncreaseValidatorStake(s, vote, lamports, seed, ephemeral) == Ok(s')
    ensures AllNamed(s'.validators)
  {
    U64Fits(seed);
    var _, _, _ := IncreaseEffect(s, vote, lamports, seed, ephemeral, s');
  }

  lemma DecreaseKeepsNames(s: State, vote: Pubkey, lamports: u64, seed: u64, ephemeral: Option<nat>, fundRent: bool,
                           s': State)
    requires AllNamed(s.validators) && DecreaseValidatorStake(s, vote, lamports, seed, ephemeral, fundRent) == Ok(s')
    ensures AllNamed(s'.validators)
  {
    U64Fits(seed);
    var _, _, _, _ := DecreaseEffect(s, vote, lamports, seed, ephemeral, fundRent, s');
  }

  lemma AddKeepsNames(s: State, vote: Key, seed: u32, s': State)
    requires AllNamed(s.validators) && AddValidator(s, vote, seed) == Ok(s')
    ensures AllNamed(s'.validators)
  {
    U32Fits(seed);
    ZeroFits(WORD);
    ZeroFits(HALF);
  }

  lemma InstructionKeepsNames(s: State, op: Instruction, s': State)
    requires Distinct(s.validators) && AllNamed(s.validators) && Apply(s, op) == Ok(s')
    ensures AllNamed(s'.validators)
  {
    match op
    case InDepositStake(vote, lamports, delegated, minimumOut) =>
      var _, _ := DepositStakeEffect(s, vote, lamports, delegated, minimumOut, s');
    case InWithdrawStake(source, tokens, minimumOut, feeWaived) =>
      var q, taken := WithdrawStakeDebits(s, source, tokens, minimumOut, feeWaived, s');
      TakeStakeKeepsNames(s, source, q, taken);
    case InIncrease(vote, lamports, seed, ephemeral) => IncreaseKeepsNames(s, vote, lamports, seed, ephemeral, s');
    case InDecrease(vote, lamports, seed, ephemeral, fundRent) =>
      DecreaseKeepsNames(s, vote, lamports, seed, ephemeral, fundRent, s');
    case InAddValidator(vote, seed) => AddKeepsNames(s, vote, seed, s');
    case InUpdateList(start, pairs, noMerge) => ChunkKeepsNames(s, start, pairs, noMerge);
    case InCleanup => FilterKeepsNames(s.validators);
    case _ =>
  }

  // ---------------------------------------------------------------------------------------
  // Amounts and epochs
  // ---------------------------------------------------------------------------------------

  lemma FreshAmountsFit(s: State, i: nat)
    requires Invariant(s) && Holdings(s) <= U64_MAX && i < |s.validators| && s.validators[i].lastUpdate == s.epoch
    ensures Fits(s.validators[i].active, WORD) && Fits(s.validators[i].transient, WORD)
  {
    EntryInOrder(s, i);
    SumUpdate(Balances(s.validators, s.accounts), i, 0);
    U64Fits(s.validators[i].active);
    U64Fits(s.validators[i].transient);
  }

  /** An instruction leaves every entry fresh or as it was. */
  lemma FreshOrSame(s: State, op: Instruction, s': State, i: nat)
    requires Invariant(s) && Invariant(s') && Apply(s, op) == Ok(s') && i < |s'.validators|
    ensures s'.validators[i].lastUpdate == s'.epoch || s'.validators[i] in s.validators
  {
    InstructionFrame(s, op, s');
    if op.InUpdateList? {
      RefreshChunkConserves(s, op.start, op.pairs, op.noMerge);
      assert Tracked(s, s', i, Covered(s, op.start, op.pairs, |op.pairs|, i));
    } else if op.InCleanup? {
      FilterHasOnly(s.validators, Kept);
      assert s'.validators[i] in Filter(s.validators, Kept);
    }
  }

  lemma EntryInRange(s: State, op: Instruction, s': State, i: nat)
    requires Invariant(s) && Invariant(s') && Apply(s, op) == Ok(s') && Holdings(s') <= U64_MAX
    requires AllInRange(s.validators) && i < |s'.validators| && Named(s'.validators[i])
    ensures InRange(s'.validators[i])
  {
    FreshOrSame(s, op, s', i);
    if s'.validators[i].lastUpdate == s'.epoch {
      FreshAmountsFit(s', i);
      U64Fits(s'.epoch);
    }
  }

  lemma InstructionKeepsRange(s: State, op: Instruction, s': State)
    requires Invariant(s) && Invariant(s') && Apply(s, op) == Ok(s') && Holdings(s') <= U64_MAX
    requires AllInRange(s.validators)
    ensures AllInRange(s'.validators)
  {
    InstructionKeepsNames(s, op, s');
    forall i | 0 <= i < |s'.validators|
      ensures InRange(s'.validators[i])
    {
      EntryInRange(s, op, s', i);
    }
  }

  lemma RangeStepAt(run: seq<State>, i: nat)
    requires Run(run) && i + 1 < |run| && Invariant(run[i]) && Invariant(run[i + 1]) && AllInRange(run[i].validators)
    ensures AllInRange(run[i + 1].validators)
  {
    assert StepAt(run, i);
    if op :| Apply(run[i], op) == Ok(run[i + 1]) {
      InstructionKeepsRange(run[i], op, run[i + 1]);
    }
  }

  /** In every state of every run the whole list can be written to its account and read back. */
  lemma {:induction false} RunKeepsRange(run: seq<State>, i: nat)
    requires Run(run) && Invariant(run[0]) && AllInRange(run[0].validators) && i < |run|
    ensures AllInRange(run[i].validators)
  {
    if i > 0 {
      RunKeepsRange(run, i - 1);
      RunKeeps(run, i - 1);
      RunKeeps(run, i);
      RangeStepAt(run, i - 1);
    }
  }
}
