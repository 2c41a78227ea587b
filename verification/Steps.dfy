/** Every step of the pool keeps the invariant, so every run does. */
module Steps {
  import opened Base
  import opened Pricing
  import opened Fees
  import opened Sums
  import opened Seqs
  import opened World
  import opened ListUpdate
  import opened Accounting
  import opened ChunkUpdate
  import opened Handlers
  import Bytes
  import BigVecs

  // ---------------------------------------------------------------------------------------
  // The environment
  // ---------------------------------------------------------------------------------------

  /** What an epoch boundary may do to a pool account: anything but revive or disown its stake. */
  ghost predicate Survives(before: StakeAccount, after: StakeAccount, epoch: nat) {
    && SoundAccount(after)
    && RegularAccount(after, before.rent, epoch)
    && (before.state.Initialized? ==> after.state.Initialized?)
    && (before.state.Delegated? && before.state.deactivation != EPOCH_MAX ==>
          after.state.Initialized?
          || (after.state.Delegated? && after.state.deactivation == before.state.deactivation))
  }

  /** An epoch boundary: rewards, losses and outside transfers change balances, no account appears. */
  ghost predicate EpochBoundary(s: State, s': State) {
    && s' == s.(epoch := s'.epoch, reserve := s'.reserve, accounts := s'.accounts)
    && s.epoch < s'.epoch < EPOCH_MAX
    && s'.accounts.Keys == s.accounts.Keys
    && (forall a :: a in s.accounts ==> Survives(s.accounts[a], s'.accounts[a], s'.epoch))
  }

  /** A holder burns pool tokens of its own. */
  ghost predicate OutsideBurn(s: State, s': State) {
    s' == s.(mintSupply := s'.mintSupply) && s'.mintSupply <= s.mintSupply
  }

  /** Anyone may deactivate the stake of a delinquent validator, in the middle of an epoch. */
  ghost predicate ForcedDeactivation(s: State, s': State) {
    s' == s.(accounts := s'.accounts) && exists a :: s'.accounts == Deactivated(s.accounts, a, s.epoch)
  }

  /** One step of a run; an instruction that fails, anywhere, changes nothing. */
  ghost predicate Step(s: State, s': State) {
    || s' == s
    || (exists op :: Apply(s, op) == Ok(s'))
    || EpochBoundary(s, s')
    || ForcedDeactivation(s, s')
    || OutsideBurn(s, s')
  }

  /** A run of the pool on a chain whose lamports all fit u64. */
  ghost predicate Run(run: seq<State>) {
    && |run| > 0
    && (forall i :: 0 <= i < |run| ==> Holdings(run[i]) <= U64_MAX)
    && (forall i :: 0 <= i < |run| - 1 ==> StepAt(run, i))
  }

  ghost predicate StepAt(run: seq<State>, i: nat)
    requires i + 1 < |run|
  {
    Step(run[i], run[i + 1])
  }

  // ---------------------------------------------------------------------------------------
  // Deposits and withdrawals
  // ---------------------------------------------------------------------------------------

  lemma FindsTheOnlyEntry(s: State, i: nat)
    requires Distinct(s.validators) && i < |s.validators|
    ensures Find(s, s.validators[i].vote) == Ok(i)
  {
    var j := IndexOf(s.validators, s.validators[i].vote);
    assert j <= i;
  }

  /** What all handlers that edit one entry have in common. */
  lemma EntryStep(s: State, s': State, i: nat, e': ValidatorStakeInfo)
    requires Invariant(s) && s.pool.lastUpdate == s.epoch
    requires i < |s.validators| && e'.vote == s.validators[i].vote && e'.lastUpdate == s.validators[i].lastUpdate
    requires s'.validators == s.validators[i := e'] && s'.maxValidators == s.maxValidators
    requires s'.epoch == s.epoch && s'.chain == s.chain
    requires OnlyOwned(s.accounts, s'.accounts, s.validators[i], e')
    requires OwnedSound(s'.accounts, s.validators[i], e', s.chain.stakeRent, s.epoch)
    requires StatusKept(e', s'.accounts) && Agrees(e', s'.accounts)
    requires ValidFees(s'.pool) && s'.pool.lastUpdate == s.pool.lastUpdate
    requires s'.mintSupply <= s'.pool.tokenSupply <= U64_MAX && s'.pool.totalLamports <= U64_MAX
    requires s'.pool.totalLamports + s.reserve + s.validators[i].Lamports()
             == s.pool.totalLamports + s'.reserve + e'.Lamports()
    ensures Invariant(s')
  {
    EntryChanged(s.validators, s.accounts, s.epoch, s.chain.stakeRent, i, e', s'.accounts);
    StakedChanged(s.validators, i, e');
  }

  /** An entry edited together with one of its accounts. */
  lemma OneAccountStep(s: State, s': State, i: nat, e': ValidatorStakeInfo, a: Address, x: StakeAccount)
    requires Invariant(s) && s.pool.lastUpdate == s.epoch && i < |s.validators|
    requires e'.vote == s.validators[i].vote && e'.lastUpdate == s.validators[i].lastUpdate
    requires e'.validatorSeed == s.validators[i].validatorSeed
    requires e'.transientSeed == s.validators[i].transientSeed || s.validators[i].transient == 0
    requires Owns(e', a) && SoundAccount(x) && RegularAccount(x, s.chain.stakeRent, s.epoch)
    requires s' == s.(validators := s.validators[i := e'], accounts := s.accounts[a := x],
                      reserve := s'.reserve, mintSupply := s'.mintSupply, pool := s'.pool)
    requires StatusKept(e', s'.accounts) && Agrees(e', s'.accounts)
    requires ValidFees(s'.pool) && s'.pool.lastUpdate == s.pool.lastUpdate
    requires s'.mintSupply <= s'.pool.tokenSupply <= U64_MAX && s'.pool.totalLamports <= U64_MAX
    requires s'.pool.totalLamports + s.reserve + s.validators[i].Lamports()
             == s.pool.totalLamports + s'.reserve + e'.Lamports()
    ensures Invariant(s')
  {
    EntryInOrder(s, i);
    EntryStep(s, s', i, e');
  }

  lemma DepositSolKeeps(s: State, lamports: u64, minimumOut: Option<nat>, s': State)
    requires Invariant(s) && DepositSol(s, lamports, minimumOut) == Ok(s')
    ensures Invariant(s')
  {
  }

  /** A credit or debit touches the totals and the mint only. */
  ghost predicate SameFees(p: Pool, p': Pool) {
    p' == p.(totalLamports := p'.totalLamports, tokenSupply := p'.tokenSupply)
  }

  lemma DepositStakeEffect(s: State, vote: Pubkey, lamports: nat, delegated: nat, minimumOut: Option<nat>, s': State)
    returns (i: nat, x: StakeAccount)
    requires DepositStake(s, vote, lamports, delegated, minimumOut) == Ok(s')
    ensures i < |s.validators| && s.validators[i].vote == vote && s.validators[i].status == Active
    ensures s.validators[i].ValidatorAddress() in s.accounts && !OutOfDate(s)
    ensures var e := s.validators[i];
            var account := s.accounts[e.ValidatorAddress()];
            && account.state.Delegated? && x.state.Delegated?
            && x == account.(lamports := account.lamports + delegated, state := account.state.(stake := x.state.stake))
            && s'.validators == s.validators[i := e.(active := x.lamports)]
            && s'.accounts == s.accounts[e.ValidatorAddress() := x]
    ensures delegated <= lamports && s'.reserve == s.reserve + lamports - delegated
    ensures SameFees(s.pool, s'.pool) && s'.pool.totalLamports == s.pool.totalLamports + lamports <= U64_MAX
    ensures s'.mintSupply - s.mintSupply == s'.pool.tokenSupply - s.pool.tokenSupply && s'.pool.tokenSupply <= U64_MAX
    ensures s' == s.(validators := s'.validators, accounts := s'.accounts, reserve := s'.reserve,
                     mintSupply := s'.mintSupply, pool := s'.pool)
  {
    i := Find(s, vote).value;
    x := s'.accounts[s.validators[i].ValidatorAddress()];
  }

  lemma DepositStakeKeeps(s: State, vote: Pubkey, lamports: nat, delegated: nat, minimumOut: Option<nat>, s': State)
    requires Invariant(s) && DepositStake(s, vote, lamports, delegated, minimumOut) == Ok(s')
    ensures Invariant(s')
  {
    var i, x := DepositStakeEffect(s, vote, lamports, delegated, minimumOut, s');
    var e := s.validators[i];
    EntryInOrder(s, i);
    OneAccountStep(s, s', i, e.(active := x.lamports), e.ValidatorAddress(), x);
  }

  lemma WithdrawSolKeeps(s: State, tokens: nat, minimumOut: Option<nat>, feeWaived: bool, s': State)
    requires Invariant(s) && WithdrawSol(s, tokens, minimumOut, feeWaived) == Ok(s')
    ensures Invariant(s')
  {
  }

  lemma TakeFromAccountKeeps(s: State, i: nat, q: Redemption, required: nat, from: WithdrawSource, taken: Taken,
                             s': State)
    requires Invariant(s) && s.pool.lastUpdate == s.epoch && i < |s.validators| && required > 0
    requires s.validators[i].status == Active
    requires var a := s.validators[i].AddressFor(from != FromActive);
             a in s.accounts && s.accounts[a].state.Delegated?
    requires TakeFromAccount(s, i, q, required, from) == Ok(taken) && Debit(taken.0, taken.1, q.burnt) == Ok(s')
    ensures Invariant(s')
  {
    var e' := s'.validators[i];
    var a := if from == FromActive then e'.ValidatorAddress() else e'.TransientAddress();
    EntryInOrder(s, i);
    OneAccountStep(s, s', i, e', a, s'.accounts[a]);
  }

  lemma TakeWholeAccountKeeps(s: State, i: nat, q: Redemption, perToken: nat, taken: Taken, s': State)
    requires Invariant(s) && s.pool.lastUpdate == s.epoch && i < |s.validators|
    requires s.validators[i].ValidatorAddress() in s.accounts && s.validators[i].transient == 0
    requires TakeWholeAccount(s, i, q, perToken) == Ok(taken) && Debit(taken.0, taken.1, q.burnt) == Ok(s')
    ensures Invariant(s')
  {
    EntryInOrder(s, i);
    EntryStep(s, s', i, s'.validators[i]);
  }

  lemma TakeStakeKeeps(s: State, source: Source, q: Redemption, taken: Taken, s': State)
    requires Invariant(s) && s.pool.lastUpdate == s.epoch
    requires TakeStake(s, source, q) == Ok(taken) && Debit(taken.0, taken.1, q.burnt) == Ok(s')
    ensures Invariant(s')
  {
    if source.Account? {
      var i := Find(s, source.address.vote).value;
      var required := SatAdd(s.accounts[source.address].rent, s.chain.MinimumDelegation());
      var perToken := LamportsPerToken(s.pool.totalLamports, s.pool.tokenSupply).value;
      var limit := SatAdd(required, perToken);
      var hasActive, hasTransient := HasActive(s.validators, limit), HasTransient(s.validators, limit);
      var (from, expected) := ChooseSource(s.validators[i], hasActive, hasTransient);
      if from == ValidatorRemoval {
        TakeWholeAccountKeeps(s, i, q, perToken, taken, s');
      } else {
        TakeFromAccountKeeps(s, i, q, required, from, taken, s');
      }
    }
  }

  lemma WithdrawStakeKeeps(s: State, source: Source, tokens: nat, minimumOut: Option<nat>, feeWaived: bool, s': State)
    requires Invariant(s) && WithdrawStake(s, source, tokens, minimumOut, feeWaived) == Ok(s')
    ensures Invariant(s')
  {
    var q := QuoteWithdrawal(s.pool, s.pool.stakeWithdrawalFee, tokens, minimumOut, feeWaived).value;
    TakeStakeKeeps(s, source, q, TakeStake(s, source, q).value, s');
  }

  // ---------------------------------------------------------------------------------------
  // Moving stake
  // ---------------------------------------------------------------------------------------

  /** An increase moves lamports from the reserve into the entry's transient account. */
  lemma IncreaseEffect(s: State, vote: Pubkey, lamports: u64, seed: nat, ephemeral: Option<nat>, s': State)
    returns (i: nat, total: nat, y: StakeAccount)
    requires IncreaseValidatorStake(s, vote, lamports, seed, ephemeral) == Ok(s')
    ensures i < |s.validators| && s.validators[i].vote == vote && s.validators[i].status == Active && !OutOfDate(s)
    ensures s.chain.MinimumDelegation() <= lamports && total == SatAdd(lamports, s.chain.stakeRent) <= s.reserve
    ensures var e, ta := s.validators[i], TransientStake(vote, seed);
            && (e.transient > 0 ==> seed == e.transientSeed && ta in s.accounts)
            && (e.transient == 0 ==>
                  && ta !in s.accounts && s.chain.stakeRent <= total
                  && y == StakeAccount(total, true, s.chain.stakeRent,
                                       Delegated(total - s.chain.stakeRent, s.epoch, EPOCH_MAX)))
            && (ta in s.accounts ==> y.rent == s.accounts[ta].rent && y.usable == s.accounts[ta].usable)
            && y.lamports == Balance(s.accounts, ta) + total && y.state.Delegated? && y.state.deactivation == EPOCH_MAX
            && s' == s.(validators := s.validators[i := e.(transient := e.transient + total, transientSeed := seed)],
                        accounts := s.accounts[ta := y], reserve := s.reserve - total)
  {
    i := Find(s, vote).value;
    total := SatAdd(lamports, s.chain.stakeRent);
    y := FundTransient(s, s.validators[i], seed, total - s.chain.stakeRent);
  }

  lemma IncreaseKeeps(s: State, vote: Pubkey, lamports: u64, seed: nat, ephemeral: Option<nat>, s': State)
    requires Invariant(s) && IncreaseValidatorStake(s, vote, lamports, seed, ephemeral) == Ok(s')
    ensures Invariant(s')
  {
    var i, total, y := IncreaseEffect(s, vote, lamports, seed, ephemeral, s');
    EntryInOrder(s, i);
    OneAccountStep(s, s', i, s.validators[i].(transient := s.validators[i].transient + total, transientSeed := seed),
                   TransientStake(vote, seed), y);
  }

  /** An entry edited together with both of its accounts. */
  lemma TwoAccountStep(s: State, s': State, i: nat, e': ValidatorStakeInfo, x: StakeAccount, y: StakeAccount)
    requires Invariant(s) && s.pool.lastUpdate == s.epoch && i < |s.validators|
    requires e'.vote == s.validators[i].vote && e'.lastUpdate == s.validators[i].lastUpdate
    requires e'.validatorSeed == s.validators[i].validatorSeed
    requires e'.transientSeed == s.validators[i].transientSeed || s.validators[i].transient == 0
    requires SoundAccount(x) && SoundAccount(y) && x.state.Delegated?
    requires RegularAccount(x, s.chain.stakeRent, s.epoch) && RegularAccount(y, s.chain.stakeRent, s.epoch)
    requires s' == s.(validators := s.validators[i := e'], reserve := s'.reserve,
                      accounts := s.accounts[e'.ValidatorAddress() := x][e'.TransientAddress() := y])
    requires e'.status == Active && e'.active == x.lamports && e'.transient == y.lamports
    requires s.reserve + s.validators[i].Lamports() == s'.reserve + e'.Lamports()
    ensures Invariant(s')
  {
    EntryInOrder(s, i);
    EntryStep(s, s', i, e');
  }

  /** A decrease moves lamports, and rent from the reserve, into the entry's transient account. */
  lemma DecreaseEffect(s: State, vote: Pubkey, lamports: u64, seed: nat, ephemeral: Option<nat>, fundRent: bool,
                       s': State)
    returns (i: nat, rent: nat, x: StakeAccount, y: StakeAccount)
    requires DecreaseValidatorStake(s, vote, lamports, seed, ephemeral, fundRent) == Ok(s')
    ensures i < |s.validators| && s.validators[i].vote == vote && s.validators[i].status == Active && !OutOfDate(s)
    ensures rent == (if fundRent then s.chain.stakeRent else 0) && rent <= s.reserve
    ensures var e, va, ta := s.validators[i], s.validators[i].ValidatorAddress(), TransientStake(vote, seed);
            && va in s.accounts && s.accounts[va].state.Delegated? && x.state.Delegated? && y.state.Delegated?
            && lamports <= e.active && 0 < lamports < s.accounts[va].lamports
            && x == Reduced(s.accounts[va], lamports)
            && (e.transient == 0 ==> y == DecreasedInto(s, e, seed, lamports + rent, s.accounts[va]))
            && x == s.accounts[va].(lamports := s.accounts[va].lamports - lamports,
                                    state := s.accounts[va].state.(stake := x.state.stake))
            && (e.transient > 0 ==> seed == e.transientSeed && ta in s.accounts)
            && (e.transient == 0 ==>
                  ta !in s.accounts && y.rent == s.chain.stakeRent && y.usable == s.accounts[va].usable)
            && (ta in s.accounts ==> y.rent == s.accounts[ta].rent && y.usable == s.accounts[ta].usable)
            && y.lamports == Balance(s.accounts, ta) + lamports + rent
            && (y.state.deactivation == s.epoch
                || y.state.deactivation == s.accounts[va].state.deactivation != EPOCH_MAX)
            && s' == s.(validators := s.validators[i := e.(active := e.active - lamports, transient := y.lamports,
                                                           transientSeed := seed)],
                        accounts := s.accounts[va := x][ta := y], reserve := s.reserve - rent)
  {
    i := Find(s, vote).value;
    rent := if fundRent then s.chain.stakeRent else 0;
    var e := s.validators[i];
    x := Reduced(s.accounts[e.ValidatorAddress()], lamports);
    y := DecreasedInto(s, e, seed, lamports + rent, s.accounts[e.ValidatorAddress()]);
  }

  lemma DecreaseKeeps(s: State, vote: Pubkey, lamports: u64, seed: nat, ephemeral: Option<nat>, fundRent: bool,
                      s': State)
    requires Invariant(s) && DecreaseValidatorStake(s, vote, lamports, seed, ephemeral, fundRent) == Ok(s')
    ensures Invariant(s')
  {
    var i, rent, x, y := DecreaseEffect(s, vote, lamports, seed, ephemeral, fundRent, s');
    var e := s.validators[i];
    EntryInOrder(s, i);
    TwoAccountStep(s, s', i, e.(active := e.active - lamports, transient := y.lamports, transientSeed := seed), x, y);
  }

  /** Deactivation changes no balance and no ownership. */
  ghost predicate SameButState(before: Accounts, after: Accounts, e: ValidatorStakeInfo, epoch: nat) {
    && after.Keys == before.Keys
    && (forall a :: a in before ==>
          && after[a] == before[a].(state := after[a].state)
          && (after[a].state == before[a].state
              || (before[a].state.Delegated? && after[a].state == before[a].state.(deactivation := epoch)))
          && (!Owns(e, a) ==> after[a] == before[a]))
  }

  lemma DeactivatedSameButState(accounts: Accounts, a: Address, epoch: nat, e: ValidatorStakeInfo)
    requires Owns(e, a)
    ensures SameButState(accounts, Deactivated(accounts, a, epoch), e, epoch)
  {
  }

  lemma StatusStep(s: State, s': State, i: nat, status: StakeStatus)
    requires Invariant(s) && s.pool.lastUpdate == s.epoch && i < |s.validators|
    requires SameButState(s.accounts, s'.accounts, s.validators[i], s.epoch)
    requires s.validators[i].status == Active
    requires status == if s.validators[i].transient > 0 then DeactivatingAll else DeactivatingValidator
    requires s' == s.(validators := s.validators[i := s.validators[i].(status := status)], accounts := s'.accounts)
    ensures Invariant(s')
  {
    EntryInOrder(s, i);
    EntryStep(s, s', i, s'.validators[i]);
  }

  /** What a removal does to the accounts: both are deactivated, in whatever state they were. */
  lemma RemoveEffect(s: State, vote: Pubkey, i: nat, s': State)
    requires RemoveValidator(s, vote) == Ok(s') && Find(s, vote) == Ok(i)
    ensures SameButState(s.accounts, s'.accounts, s.validators[i], s.epoch)
    ensures s' == s.(validators := s.validators[i := s'.validators[i]], accounts := s'.accounts)
  {
    var e := s.validators[i];
    DeactivatedSameButState(s.accounts, e.TransientAddress(), s.epoch, e);
    DeactivatedSameButState(s.accounts, e.ValidatorAddress(), s.epoch, e);
    DeactivatedSameButState(Deactivated(s.accounts, e.TransientAddress(), s.epoch), e.ValidatorAddress(), s.epoch, e);
  }

  lemma RemoveKeeps(s: State, vote: Pubkey, s': State)
    requires Invariant(s) && RemoveValidator(s, vote) == Ok(s')
    ensures Invariant(s')
  {
    var i := Find(s, vote).value;
    RemoveEffect(s, vote, i, s');
    StatusStep(s, s', i, s'.validators[i].status);
  }

  // ---------------------------------------------------------------------------------------
  // The list and the balance
  // ---------------------------------------------------------------------------------------

  /** A new entry with its freshly funded account. */
  lemma EntryAppended(s: State, e: ValidatorStakeInfo, x: StakeAccount)
    requires Registered(s.validators, s.accounts, s.epoch, s.chain.stakeRent)
    requires Find(s, e.vote).Err?
    requires e.status == Active && e.transient == 0 && e.active == x.lamports && e.lastUpdate == s.epoch
    requires SoundAccount(x) && RegularAccount(x, s.chain.stakeRent, s.epoch) && x.state.Delegated?
    ensures Registered(s.validators + [e], s.accounts[e.ValidatorAddress() := x], s.epoch, s.chain.stakeRent)
    ensures Sum(Staked(s.validators + [e])) == Sum(Staked(s.validators)) + e.Lamports()
  {
    var n, after, accounts := |s.validators|, s.validators + [e], s.accounts[e.ValidatorAddress() := x];
    assert after[n] == e;
    forall a | a in accounts
      ensures Owned(after, a) && SoundAccount(accounts[a]) && RegularAccount(accounts[a], s.chain.stakeRent, s.epoch)
    {
      if a == e.ValidatorAddress() {
        assert Owns(after[n], a);
      } else {
        assert Owned(s.validators, a) && SoundAccount(s.accounts[a]);
        assert RegularAccount(s.accounts[a], s.chain.stakeRent, s.epoch);
        var i :| 0 <= i < n && Owns(s.validators[i], a);
        assert Owns(after[i], a);
      }
    }
    assert e.TransientAddress() in s.accounts ==> Owned(s.validators, e.TransientAddress());
    forall i | 0 <= i < |after|
      ensures SoundEntry(after[i], accounts, s.epoch)
    {
      if i < n {
        assert SoundEntry(s.validators[i], s.accounts, s.epoch);
        assert after[i] == s.validators[i] && s.validators[i].vote != e.vote;
      }
    }
    assert Staked(after) == Staked(s.validators) + [e.Lamports()];
    SumConcat(Staked(s.validators), [e.Lamports()]);
  }

  lemma AddKeeps(s: State, vote: Pubkey, seed: nat, s': State)
    requires Invariant(s) && AddValidator(s, vote, seed) == Ok(s')
    ensures Invariant(s')
  {
    var e := s'.validators[|s.validators|];
    EntryAppended(s, e, s'.accounts[e.ValidatorAddress()]);
  }

  /** The loop over the records adds up exactly what they show, and fails only if one is stale or the sum overflows. */
  lemma {:induction false} TotalStakeIsTheSum(validators: seq<ValidatorStakeInfo>, epoch: nat, sum: nat)
    ensures match TotalStake(validators, epoch, sum)
            case Ok(total) =>
              && total == sum + Sum(Staked(validators))
              && (total <= U64_MAX || validators == [])
              && (forall i :: 0 <= i < |validators| ==> validators[i].lastUpdate >= epoch)
            case Err(error) =>
              || sum + Sum(Staked(validators)) > U64_MAX
              || exists i :: 0 <= i < |validators| && validators[i].lastUpdate < epoch
    ensures TotalStake(validators, epoch, sum) == Err(StakeListOutOfDate) ==>
              exists i :: 0 <= i < |validators| && validators[i].lastUpdate < epoch
  {
    if validators != [] {
      var e := validators[0];
      assert Staked(validators)[0] == e.Lamports() && Staked(validators)[1..] == Staked(validators[1..]);
      if e.lastUpdate >= epoch && sum + e.Lamports() <= U64_MAX {
        TotalStakeIsTheSum(validators[1..], epoch, sum + e.Lamports());
        if j :| 0 <= j < |validators[1..]| && validators[1..][j].lastUpdate < epoch {
          assert validators[j + 1].lastUpdate < epoch;
        }
      }
    }
  }

  lemma UpdateBalanceKeeps(s: State, feeAccountValid: bool, s': State)
    requires Invariant(s) && s.reserve <= U64_MAX && UpdateBalance(s, feeAccountValid) == Ok(s')
    ensures Invariant(s') && s'.pool.lastUpdate == s'.epoch
  {
    TotalStakeIsTheSum(s.validators, s.epoch, s.reserve - s.chain.reserveRent);
    forall i | 0 <= i < |s.validators|
      ensures s.validators[i].lastUpdate == s.epoch
    {
      EntryInOrder(s, i);
    }
  }

  lemma SetFeeKeeps(s: State, fee: FeeType, s': State)
    requires Invariant(s) && SetFee(s, fee) == Ok(s')
    ensures Invariant(s')
  {
  }

  /** What is filtered out shows no lamports. */
  lemma {:induction false} FilterKeepsStaked(validators: seq<ValidatorStakeInfo>)
    ensures Sum(Staked(Filter(validators, Kept))) == Sum(Staked(validators))
  {
    if validators != [] {
      var e, rest := validators[0], validators[1..];
      FilterKeepsStaked(rest);
      assert Staked(validators) == [e.Lamports()] + Staked(rest);
      if Kept(e) {
        assert Staked([e] + Filter(rest, Kept)) == [e.Lamports()] + Staked(Filter(rest, Kept));
      }
    }
  }

  /** What is filtered out holds no lamports either. */
  lemma {:induction false} FilterKeepsBalances(validators: seq<ValidatorStakeInfo>, accounts: Accounts, epoch: nat)
    requires forall i {:trigger SoundEntry(validators[i], accounts, epoch)} ::
               0 <= i < |validators| ==> SoundEntry(validators[i], accounts, epoch)
    ensures Sum(Balances(Filter(validators, Kept), accounts)) == Sum(Balances(validators, accounts))
  {
    if validators != [] {
      var e, rest := validators[0], validators[1..];
      assert SoundEntry(validators[0], accounts, epoch);
      forall i | 0 <= i < |rest|
        ensures SoundEntry(rest[i], accounts, epoch)
      {
        assert SoundEntry(validators[i + 1], accounts, epoch);
      }
      FilterKeepsBalances(rest, accounts, epoch);
      assert Balances(validators, accounts) == [EntryBalance(e, accounts)] + Balances(rest, accounts);
      if Kept(e) {
        assert Balances([e] + Filter(rest, Kept), accounts)
            == [EntryBalance(e, accounts)] + Balances(Filter(rest, Kept), accounts);
      }
    }
  }

  /** Cleanup deletes exactly the entries marked ready, and with them not a single lamport. */
  lemma CleanupIsExact(s: State)
    requires Invariant(s)
    ensures forall e :: e in Cleanup(s).validators <==> e in s.validators && e.status != ReadyForRemoval
    ensures forall i :: 0 <= i < |s.validators| && s.validators[i].status == ReadyForRemoval ==>
              EntryBalance(s.validators[i], s.accounts) == 0
    ensures Holdings(Cleanup(s)) == Holdings(s)
  {
    FilterKeepsBalances(s.validators, s.accounts, s.epoch);
    var kept := Filter(s.validators, Kept);
    FilterHasOnly(s.validators, Kept);
    forall e
      ensures e in kept <==> e in s.validators && e.status != ReadyForRemoval
    {
      if e in s.validators {
        var i :| 0 <= i < |s.validators| && s.validators[i] == e;
        EntryInOrder(s, i);
        if Kept(e) {
          FilterHasAll(s.validators, Kept, i);
        }
      }
    }
    forall i | 0 <= i < |s.validators| && s.validators[i].status == ReadyForRemoval
      ensures EntryBalance(s.validators[i], s.accounts) == 0
    {
      EntryInOrder(s, i);
    }
  }

  lemma CleanupKeeps(s: State)
    requires Invariant(s)
    ensures Invariant(Cleanup(s))
  {
    var kept := Filter(s.validators, Kept);
    FilterKeepsDistinct(s.validators, Kept);
    FilterKeepsStaked(s.validators);
    FilterHasOnly(s.validators, Kept);
    forall i | 0 <= i < |kept|
      ensures SoundEntry(kept[i], s.accounts, s.epoch)
      ensures s.pool.lastUpdate == s.epoch ==> kept[i].lastUpdate == s.epoch
    {
      assert kept[i] in s.validators;
      var j :| 0 <= j < |s.validators| && s.validators[j] == kept[i];
      EntryInOrder(s, j);
    }
    forall a | a in s.accounts
      ensures Owned(kept, a)
    {
      KeptOwner(s, a);
    }
  }

  lemma KeptOwner(s: State, a: Address)
    requires Invariant(s) && a in s.accounts
    ensures Owned(Filter(s.validators, Kept), a)
  {
    var kept := Filter(s.validators, Kept);
    assert Owned(s.validators, a);
    var j :| 0 <= j < |s.validators| && Owns(s.validators[j], a);
    EntryInOrder(s, j);
    FilterHasAll(s.validators, Kept, j);
    var i :| 0 <= i < |kept| && kept[i] == s.validators[j];
    assert Owns(kept[i], a);
  }

  // ---------------------------------------------------------------------------------------
  // Runs
  // ---------------------------------------------------------------------------------------

  /** A new pool satisfies the invariant and has room on its list for exactly the promised entries. */
  lemma InitializeEstablishes(epochFee: Fee, withdrawalFee: Fee, depositFee: Fee, referralFee: nat,
                              maxValidators: nat, listBytes: nat, reserve: u64, epoch: nat, chain: Chain, s: State)
    requires epoch < EPOCH_MAX && chain.stakeRent > 0
    requires Initialize(epochFee, withdrawalFee, depositFee, referralFee, maxValidators, listBytes, reserve, epoch,
                        chain) == Ok(s)
    ensures Invariant(s) && s.pool.lastUpdate == s.epoch == epoch && s.chain == chain && s.reserve == reserve
    ensures s.mintSupply == s.pool.tokenSupply == s.pool.totalLamports == reserve - chain.reserveRent
    ensures s.pool.epochFee == epochFee && s.pool.stakeDepositFee == s.pool.solDepositFee == depositFee
    ensures s.pool.stakeWithdrawalFee == s.pool.solWithdrawalFee == withdrawalFee
    ensures s.pool.stakeReferralFee == s.pool.solReferralFee == referralFee
    ensures s.pool.nextEpochFee == s.pool.nextStakeWithdrawalFee == s.pool.nextSolWithdrawalFee == Nothing
    ensures s.validators == [] && Holdings(s) <= U64_MAX
    ensures LIST_HEADER_BYTES + BigVecs.PREFIX + s.maxValidators * Bytes.RECORD <= listBytes
            < LIST_HEADER_BYTES + BigVecs.PREFIX + (s.maxValidators + 1) * Bytes.RECORD
  {
  }

  lemma InstructionKeeps(s: State, op: Instruction, s': State)
    requires Invariant(s) && Holdings(s) <= U64_MAX && Apply(s, op) == Ok(s')
    ensures Invariant(s')
  {
    match op
    case InDepositSol(lamports, minimumOut) => DepositSolKeeps(s, lamports, minimumOut, s');
    case InDepositStake(vote, lamports, delegated, minimumOut) =>
      DepositStakeKeeps(s, vote, lamports, delegated, minimumOut, s');
    case InWithdrawSol(tokens, minimumOut, feeWaived) => WithdrawSolKeeps(s, tokens, minimumOut, feeWaived, s');
    case InWithdrawStake(source, tokens, minimumOut, feeWaived) =>
      WithdrawStakeKeeps(s, source, tokens, minimumOut, feeWaived, s');
    case InIncrease(vote, lamports, seed, ephemeral) => IncreaseKeeps(s, vote, lamports, seed, ephemeral, s');
    case InDecrease(vote, lamports, seed, ephemeral, fundRent) =>
      DecreaseKeeps(s, vote, lamports, seed, ephemeral, fundRent, s');
    case InAddValidator(vote, seed) => AddKeeps(s, vote, seed, s');
    case InRemoveValidator(vote) => RemoveKeeps(s, vote, s');
    case InUpdateList(start, pairs, noMerge) => RefreshChunkKeepsInvariant(s, start, pairs, noMerge);
    case InUpdateBalance(feeAccountValid) => UpdateBalanceKeeps(s, feeAccountValid, s');
    case InCleanup => CleanupKeeps(s);
    case InSetFee(fee) => SetFeeKeeps(s, fee, s');
  }

  /** Whatever account it splits from, a stake withdrawal takes at most what was quoted. */
  lemma TakenIsQuoted(s: State, source: Source, q: Redemption, taken: Taken)
    requires TakeStake(s, source, q) == Ok(taken)
    ensures taken.0 == s.(reserve := taken.0.reserve, validators := taken.0.validators, accounts := taken.0.accounts)
    ensures taken.1 <= q.lamports
  {
  }

  lemma WithdrawStakeDebits(s: State, source: Source, tokens: nat, minimumOut: Option<nat>, feeWaived: bool, s': State)
    returns (q: Redemption, taken: Taken)
    requires WithdrawStake(s, source, tokens, minimumOut, feeWaived) == Ok(s')
    ensures QuoteWithdrawal(s.pool, s.pool.stakeWithdrawalFee, tokens, minimumOut, feeWaived) == Ok(q)
            && q.burnt <= tokens
    ensures TakeStake(s, source, q) == Ok(taken) && Debit(taken.0, taken.1, q.burnt) == Ok(s')
    ensures taken.0 == s.(reserve := taken.0.reserve, validators := taken.0.validators, accounts := taken.0.accounts)
    ensures taken.1 <= q.lamports
  {
    q := QuoteWithdrawal(s.pool, s.pool.stakeWithdrawalFee, tokens, minimumOut, feeWaived).value;
    taken := TakeStake(s, source, q).value;
    TakenIsQuoted(s, source, q, taken);
  }

  /** The instructions that change the pool's totals. */
  predicate Priced(op: Instruction) {
    op.InDepositSol? || op.InDepositStake? || op.InWithdrawSol? || op.InWithdrawStake? || op.InUpdateBalance?
  }

  /** What no instruction touches, and what only the priced ones do. */
  lemma InstructionFrame(s: State, op: Instruction, s': State)
    requires Apply(s, op) == Ok(s')
    ensures s'.chain == s.chain && s'.epoch == s.epoch && s'.maxValidators == s.maxValidators
    ensures !Priced(op) ==> s'.mintSupply == s.mintSupply && SameFunds(s.pool, s'.pool)
    ensures !op.InSetFee? && !op.InUpdateBalance? ==> SameFees(s.pool, s'.pool)
  {
    match op
    case InUpdateList(start, pairs, noMerge) => RefreshChunkFrame(s, start, pairs, noMerge);
    case InIncrease(vote, lamports, seed, ephemeral) =>
      var _, _, _ := IncreaseEffect(s, vote, lamports, seed, ephemeral, s');
    case InDecrease(vote, lamports, seed, ephemeral, fundRent) =>
      var _, _, _, _ := DecreaseEffect(s, vote, lamports, seed, ephemeral, fundRent, s');
    case InDepositStake(vote, lamports, delegated, minimumOut) =>
      var _, _ := DepositStakeEffect(s, vote, lamports, delegated, minimumOut, s');
    case InWithdrawStake(source, tokens, minimumOut, feeWaived) =>
      var _, _ := WithdrawStakeDebits(s, source, tokens, minimumOut, feeWaived, s');
    case _ =>
  }

  ghost predicate SameFunds(p: Pool, p': Pool) {
    p'.totalLamports == p.totalLamports && p'.tokenSupply == p.tokenSupply
  }

  lemma {:induction false} RefreshChunkFrame(s: State, start: nat, pairs: seq<AccountPair>, noMerge: bool)
    requires start + |pairs| <= |s.validators|
    ensures var r := RefreshChunk(s, start, pairs, noMerge);
            r == s.(validators := r.validators, reserve := r.reserve, accounts := r.accounts)
    decreases |pairs|
  {
    if pairs != [] {
      RefreshChunkFrame(s, start, pairs[..|pairs| - 1], noMerge);
    }
  }

  lemma EpochBoundaryKeeps(s: State, s': State)
    requires Invariant(s) && EpochBoundary(s, s')
    ensures Invariant(s')
  {
    forall i | 0 <= i < |s.validators|
      ensures SoundEntry(s'.validators[i], s'.accounts, s'.epoch)
    {
      EntryInOrder(s, i);
    }
    forall a | a in s'.accounts
      ensures SoundAccount(s'.accounts[a]) && RegularAccount(s'.accounts[a], s.chain.stakeRent, s'.epoch)
    {
      assert a in s.accounts && Survives(s.accounts[a], s'.accounts[a], s'.epoch);
      assert RegularAccount(s.accounts[a], s.chain.stakeRent, s.epoch);
    }
    forall a | a in s'.accounts
      ensures Owned(s'.validators, a)
    {
      assert Owned(s.validators, a);
    }
  }

  lemma ForcedDeactivationKeeps(s: State, a: Address, s': State)
    requires Invariant(s) && s' == s.(accounts := Deactivated(s.accounts, a, s.epoch))
    ensures Invariant(s')
  {
    forall i | 0 <= i < |s.validators|
      ensures SoundEntry(s'.validators[i], s'.accounts, s'.epoch)
    {
      EntryInOrder(s, i);
    }
    forall b | b in s'.accounts
      ensures SoundAccount(s'.accounts[b]) && RegularAccount(s'.accounts[b], s.chain.stakeRent, s'.epoch)
      ensures Owned(s'.validators, b)
    {
      assert b in s.accounts && SoundAccount(s.accounts[b]) && Owned(s.validators, b);
      assert RegularAccount(s.accounts[b], s.chain.stakeRent, s.epoch);
    }
  }

  lemma StepKeeps(s: State, s': State)
    requires Invariant(s) && Holdings(s) <= U64_MAX && Step(s, s')
    ensures Invariant(s')
  {
    if op :| Apply(s, op) == Ok(s') {
      InstructionKeeps(s, op, s');
    } else if EpochBoundary(s, s') {
      EpochBoundaryKeeps(s, s');
    } else if ForcedDeactivation(s, s') {
      var a :| s'.accounts == Deactivated(s.accounts, a, s.epoch);
      ForcedDeactivationKeeps(s, a, s');
    }
  }

  lemma StepFrame(s: State, s': State)
    requires Step(s, s')
    ensures s'.chain == s.chain && s.epoch <= s'.epoch && s'.maxValidators == s.maxValidators
  {
    if op :| Apply(s, op) == Ok(s') {
      InstructionFrame(s, op, s');
    }
  }

  lemma RunStep(run: seq<State>, i: nat)
    requires Run(run) && i + 1 < |run| && Invariant(run[i])
    ensures Invariant(run[i + 1])
    ensures run[i + 1].chain == run[i].chain && run[i].epoch <= run[i + 1].epoch
            && run[i + 1].maxValidators == run[i].maxValidators
  {
    assert StepAt(run, i);
    StepKeeps(run[i], run[i + 1]);
    StepFrame(run[i], run[i + 1]);
  }

  /** The accounting invariant holds in every state of every run. */
  lemma {:induction false} RunKeeps(run: seq<State>, i: nat)
    requires Run(run) && Invariant(run[0]) && i < |run|
    ensures Invariant(run[i])
    ensures run[i].chain == run[0].chain && run[0].epoch <= run[i].epoch && run[i].maxValidators == run[0].maxValidators
    ensures run[i].pool.lastUpdate == run[i].epoch ==>
              run[i].pool.totalLamports + run[i].chain.reserveRent == Holdings(run[i])
  {
    if i > 0 {
      RunKeeps(run, i - 1);
      RunStep(run, i - 1);
    }
    if run[i].pool.lastUpdate == run[i].epoch {
      UpToDateMeansAccounted(run[i]);
    }
  }
}
