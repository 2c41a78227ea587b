/** Exactly when stake may be moved and validators added or removed, and what that changes. */
module Guards {
  import opened Base
  import opened Pricing
  import opened World
  import opened ListUpdate
  import opened Accounting
  import opened Handlers
  import opened Steps
  import Bytes
  import BigVecs

  /** Entry i is the active one of the vote account. */
  ghost predicate InService(s: State, vote: Pubkey, i: nat) {
    i < |s.validators| && s.validators[i].vote == vote && s.validators[i].status == Active
  }

  /** An entry in service has its delegated validator account and no transient account but its own. */
  lemma ServiceIsStaked(s: State, vote: Pubkey, i: nat)
    requires Invariant(s) && s.pool.lastUpdate == s.epoch && InService(s, vote, i)
    ensures Find(s, vote) == Ok(i)
    ensures var e := s.validators[i];
            var va := e.ValidatorAddress();
            && va in s.accounts && SoundAccount(s.accounts[va]) && s.accounts[va].state.Delegated?
            && s.accounts[va].rent == s.chain.stakeRent && e.active == s.accounts[va].lamports
            && (e.TransientAddress() in s.accounts <==> e.transient != 0)
            && e.transient == Balance(s.accounts, e.TransientAddress())
    ensures forall seed :: TransientStake(vote, seed) in s.accounts ==> seed == s.validators[i].transientSeed
    ensures forall seed :: EphemeralStake(seed) !in s.accounts
  {
    FindsTheOnlyEntry(s, i);
    EntryInOrder(s, i);
    assert Owns(s.validators[i], s.validators[i].ValidatorAddress());
    forall seed | TransientStake(vote, seed) in s.accounts
      ensures seed == s.validators[i].transientSeed
    {
      assert Owned(s.validators, TransientStake(vote, seed));
    }
    forall seed
      ensures EphemeralStake(seed) !in s.accounts
    {
      assert !Owned(s.validators, EphemeralStake(seed));
    }
  }

  // ---------------------------------------------------------------------------------------
  // Increases
  // ---------------------------------------------------------------------------------------

  /**
   * Transient stake is only added to through an ephemeral account, under its own seed and in the epoch it
   * was started in.
   */
  ghost predicate MayTopUp(s: State, e: ValidatorStakeInfo, seed: nat, ephemeral: Option<nat>, increase: bool) {
    e.transient > 0 ==>
      && ephemeral.Some? && seed == e.transientSeed && e.TransientAddress() in s.accounts
      && var state := s.accounts[e.TransientAddress()].state;
         && state.Delegated?
         && if increase then state.activation == s.epoch && state.deactivation == EPOCH_MAX
            else state.deactivation == s.epoch
  }

  /** The transient account after an increase: the rent of one that is topped up is delegated too. */
  ghost function Topped(s: State, e: ValidatorStakeInfo, lamports: nat): StakeAccount {
    if e.transient > 0 && e.TransientAddress() in s.accounts && s.accounts[e.TransientAddress()].state.Delegated? then
      var account, total := s.accounts[e.TransientAddress()], lamports + s.chain.stakeRent;
      account.(lamports := account.lamports + total, state := account.state.(stake := account.state.stake + total))
    else
      StakeAccount(lamports + s.chain.stakeRent, true, s.chain.stakeRent, Delegated(lamports, s.epoch, EPOCH_MAX))
  }

  /** Lamports and one rent go from the reserve, which keeps another rent, to the transient account of entry i. */
  ghost predicate Increases(s: State, i: nat, vote: Pubkey, lamports: nat, seed: nat, ephemeral: Option<nat>, s': State)
  {
    && s.pool.lastUpdate == s.epoch && InService(s, vote, i)
    && s.chain.MinimumDelegation() <= lamports && lamports + 2 * s.chain.stakeRent <= s.reserve
    && var e, total := s.validators[i], lamports + s.chain.stakeRent;
       && MayTopUp(s, e, seed, ephemeral, true) && e.transient + total <= U64_MAX
       && s' == s.(validators := s.validators[i := e.(transient := e.transient + total, transientSeed := seed)],
                   accounts := s.accounts[TransientStake(vote, seed) := Topped(s, e, lamports)],
                   reserve := s.reserve - total)
  }

  lemma AmountIff(s: State, i: nat, vote: Pubkey, lamports: u64, seed: nat, ephemeral: Option<nat>)
    requires Invariant(s) && s.pool.lastUpdate == s.epoch && s.reserve <= U64_MAX && InService(s, vote, i)
    ensures var e := s.validators[i];
            var r := IncreaseAmount(e, s.accounts, s.reserve, s.epoch, s.chain, lamports, seed, ephemeral);
            && (r.Ok? <==> MayTopUp(s, e, seed, ephemeral, true)
                           && s.chain.MinimumDelegation() <= lamports && lamports + 2 * s.chain.stakeRent <= s.reserve)
            && (r.Ok? ==> r.value == lamports + s.chain.stakeRent)
  {
    ServiceIsStaked(s, vote, i);
  }

  /** When an increase succeeds, and what it changes. */
  lemma IncreaseIff(s: State, vote: Pubkey, lamports: u64, seed: nat, ephemeral: Option<nat>, s': State)
    requires Invariant(s) && s.reserve <= U64_MAX
    ensures IncreaseValidatorStake(s, vote, lamports, seed, ephemeral) == Ok(s')
            <==> exists i :: Increases(s, i, vote, lamports, seed, ephemeral, s')
  {
    if IncreaseValidatorStake(s, vote, lamports, seed, ephemeral) == Ok(s') {
      var i, total, y := IncreaseEffect(s, vote, lamports, seed, ephemeral, s');
      AmountIff(s, i, vote, lamports, seed, ephemeral);
      ServiceIsStaked(s, vote, i);
      assert Increases(s, i, vote, lamports, seed, ephemeral, s');
    }
    forall i | Increases(s, i, vote, lamports, seed, ephemeral, s')
      ensures IncreaseValidatorStake(s, vote, lamports, seed, ephemeral) == Ok(s')
    {
      AmountIff(s, i, vote, lamports, seed, ephemeral);
      ServiceIsStaked(s, vote, i);
    }
  }

  // ---------------------------------------------------------------------------------------
  // Decreases
  // ---------------------------------------------------------------------------------------

  /** The transient account after a decrease: it stops now, and all but its rent is stake. */
  ghost function SplitInto(s: State, e: ValidatorStakeInfo, from: StakeAccount, moved: nat): StakeAccount
    requires from.state.Delegated?
  {
    var ta, stake := e.TransientAddress(), Max(moved - s.chain.stakeRent, 0);
    if e.transient > 0 && ta in s.accounts && s.accounts[ta].state.Delegated? then
      var account := s.accounts[ta];
      account.(lamports := account.lamports + moved, state := account.state.(stake := account.state.stake + stake))
    else
      StakeAccount(moved, from.usable, s.chain.stakeRent,
                   Delegated(stake, from.state.activation, Min(from.state.deactivation, s.epoch)))
  }

  /** Lamports of the validator account, and rent of the reserve, are in the transient account of entry i. */
  ghost predicate Moved(s: State, i: nat, vote: Pubkey, lamports: nat, seed: nat, rent: nat, s': State)
    requires i < |s.validators| && rent <= s.reserve && lamports <= s.validators[i].active
  {
    var e := s.validators[i];
    var va, ta := e.ValidatorAddress(), TransientStake(vote, seed);
    && va in s.accounts && s.accounts[va].state.Delegated? && lamports <= s.accounts[va].lamports
    && var from := s.accounts[va];
       var left := from.(lamports := from.lamports - lamports,
                         state := from.state.(stake := Max(from.state.stake - lamports, 0)));
       s' == s.(validators := s.validators[i := e.(active := e.active - lamports, transientSeed := seed,
                                                   transient := e.transient + lamports + rent)],
                accounts := s.accounts[va := left][ta := SplitInto(s, e, from, lamports + rent)],
                reserve := s.reserve - rent)
  }

  /** The validator account keeps its rent and the minimum delegation, and the reserve more than a rent it funds. */
  ghost predicate Decreases(s: State, i: nat, vote: Pubkey, lamports: nat, seed: nat, ephemeral: Option<nat>,
                            fundRent: bool, s': State)
  {
    && s.pool.lastUpdate == s.epoch && InService(s, vote, i)
    && MayTopUp(s, s.validators[i], seed, ephemeral, false) && s.chain.MinimumDelegation() <= lamports
    && lamports + Min(s.chain.stakeRent + s.chain.MinimumDelegation(), U64_MAX) <= s.validators[i].active
    && (fundRent ==> s.chain.stakeRent < s.reserve)
    && Moved(s, i, vote, lamports, seed, if fundRent then s.chain.stakeRent else 0, s')
  }

  lemma RentIff(s: State, i: nat, vote: Pubkey, lamports: u64, seed: nat, ephemeral: Option<nat>, fundRent: bool)
    requires Invariant(s) && s.pool.lastUpdate == s.epoch && InService(s, vote, i)
    ensures var e := s.validators[i];
            var r := DecreaseRent(e, s.accounts, s.reserve, s.epoch, s.chain, lamports, seed, ephemeral, fundRent);
            && (r.Ok? <==>
                  && MayTopUp(s, e, seed, ephemeral, false) && s.chain.MinimumDelegation() <= lamports
                  && lamports + Min(s.chain.stakeRent + s.chain.MinimumDelegation(), U64_MAX) <= e.active
                  && (fundRent ==> s.chain.stakeRent < s.reserve))
            && (r.Ok? ==> r.value == if fundRent then s.chain.stakeRent else 0)
  {
    ServiceIsStaked(s, vote, i);
  }

  lemma SplitIs(s: State, i: nat, vote: Pubkey, seed: nat, ephemeral: Option<nat>, moved: nat)
    requires Invariant(s) && s.pool.lastUpdate == s.epoch && InService(s, vote, i)
    requires MayTopUp(s, s.validators[i], seed, ephemeral, false)
    ensures var e := s.validators[i];
            var va := e.ValidatorAddress();
            && va in s.accounts && s.accounts[va].state.Delegated?
            && DecreasedInto(s, e, seed, moved, s.accounts[va]) == SplitInto(s, e, s.accounts[va], moved)
            && SplitInto(s, e, s.accounts[va], moved).lamports == e.transient + moved
  {
    ServiceIsStaked(s, vote, i);
    assert RegularAccount(s.accounts[s.validators[i].ValidatorAddress()], s.chain.stakeRent, s.epoch);
  }

  lemma DecreasedBy(s: State, i: nat, vote: Pubkey, lamports: nat, seed: nat, ephemeral: Option<nat>, rent: nat,
                    s': State)
    requires Invariant(s) && s.pool.lastUpdate == s.epoch && InService(s, vote, i) && rent <= s.reserve
    requires MayTopUp(s, s.validators[i], seed, ephemeral, false) && lamports <= s.validators[i].active
    ensures var e := s.validators[i];
            var va, ta := e.ValidatorAddress(), TransientStake(vote, seed);
            && va in s.accounts && s.accounts[va].state.Delegated? && lamports <= s.accounts[va].lamports
            && (e.transient > 0 ==> ta in s.accounts && s.accounts[ta].state.Delegated?)
            && (DecreaseBy(s, i, seed, lamports, rent) == Ok(s')
                <==> Moved(s, i, vote, lamports, seed, rent, s'))
  {
    ServiceIsStaked(s, vote, i);
    SplitIs(s, i, vote, seed, ephemeral, lamports + rent);
  }

  lemma DecreasedIff(s: State, i: nat, vote: Pubkey, lamports: u64, seed: nat, ephemeral: Option<nat>, fundRent: bool,
                     s': State)
    requires Invariant(s) && s.pool.lastUpdate == s.epoch && InService(s, vote, i)
    ensures DecreaseValidatorStake(s, vote, lamports, seed, ephemeral, fundRent) == Ok(s')
            <==> Decreases(s, i, vote, lamports, seed, ephemeral, fundRent, s')
  {
    RentIff(s, i, vote, lamports, seed, ephemeral, fundRent);
    ServiceIsStaked(s, vote, i);
    var e, rent := s.validators[i], if fundRent then s.chain.stakeRent else 0;
    if MayTopUp(s, e, seed, ephemeral, false) && lamports <= e.active && rent <= s.reserve {
      DecreasedBy(s, i, vote, lamports, seed, ephemeral, rent, s');
    }
  }

  /** When a decrease succeeds, and what it changes. */
  lemma DecreaseIff(s: State, vote: Pubkey, lamports: u64, seed: nat, ephemeral: Option<nat>, fundRent: bool, s': State)
    requires Invariant(s)
    ensures DecreaseValidatorStake(s, vote, lamports, seed, ephemeral, fundRent) == Ok(s')
            <==> exists i :: Decreases(s, i, vote, lamports, seed, ephemeral, fundRent, s')
  {
    if DecreaseValidatorStake(s, vote, lamports, seed, ephemeral, fundRent) == Ok(s') {
      var i, rent, x, y := DecreaseEffect(s, vote, lamports, seed, ephemeral, fundRent, s');
      DecreasedIff(s, i, vote, lamports, seed, ephemeral, fundRent, s');
    }
    forall i | Decreases(s, i, vote, lamports, seed, ephemeral, fundRent, s')
      ensures DecreaseValidatorStake(s, vote, lamports, seed, ephemeral, fundRent) == Ok(s')
    {
      DecreasedIff(s, i, vote, lamports, seed, ephemeral, fundRent, s');
    }
  }

  // ---------------------------------------------------------------------------------------
  // Validators
  // ---------------------------------------------------------------------------------------

  /** A new validator account holds its rent and the minimum delegation, out of the reserve, which keeps its rent. */
  ghost predicate Adds(s: State, vote: Pubkey, seed: nat, s': State) {
    var lamports := Min(s.chain.MinimumDelegation() + s.chain.stakeRent, U64_MAX);
    && s.pool.lastUpdate == s.epoch && |s.validators| < s.maxValidators
    && (forall i :: 0 <= i < |s.validators| ==> s.validators[i].vote != vote)
    && lamports + s.chain.reserveRent <= s.reserve
    && s' == s.(validators := s.validators + [ValidatorStakeInfo(lamports, 0, s.epoch, 0, 0, seed, Active, vote)],
                accounts := s.accounts[ValidatorStake(vote, seed) :=
                  StakeAccount(lamports, true, s.chain.stakeRent,
                               Delegated(lamports - s.chain.stakeRent, s.epoch, EPOCH_MAX))],
                reserve := s.reserve - lamports)
  }

  /** When a validator is added, and what that changes. */
  lemma AddIff(s: State, vote: Pubkey, seed: nat, s': State)
    requires Invariant(s)
    ensures AddValidator(s, vote, seed) == Ok(s') <==> Adds(s, vote, seed, s')
  {
    if ValidatorStake(vote, seed) in s.accounts {
      assert Owned(s.validators, ValidatorStake(vote, seed));
    }
  }

  /** The account, stopped now if it was still running. */
  ghost function StoppedNow(account: StakeAccount, epoch: nat): StakeAccount {
    if account.state.Delegated? && account.state.deactivation == EPOCH_MAX then
      account.(state := account.state.(deactivation := epoch))
    else account
  }

  /** Both stakes of the entry are stopped, and its status says which of them it waits for. */
  ghost predicate Removes(s: State, i: nat, vote: Pubkey, s': State) {
    && s.pool.lastUpdate == s.epoch && InService(s, vote, i)
    && var e := s.validators[i];
       var va, ta := e.ValidatorAddress(), e.TransientAddress();
       && va in s.accounts && (e.transient > 0 ==> ta in s.accounts)
       && s' == s.(validators := s.validators[i :=
                     e.(status := if e.transient > 0 then DeactivatingAll else DeactivatingValidator)],
                   accounts := if e.transient > 0 then
                                 s.accounts[ta := StoppedNow(s.accounts[ta], s.epoch)]
                                           [va := StoppedNow(s.accounts[va], s.epoch)]
                               else s.accounts[va := StoppedNow(s.accounts[va], s.epoch)])
  }

  lemma StoppingIs(accounts: Accounts, a: Address, epoch: nat)
    requires a in accounts
    ensures Deactivated(accounts, a, epoch) == accounts[a := StoppedNow(accounts[a], epoch)]
  {
  }

  lemma RemovedIff(s: State, i: nat, vote: Pubkey, s': State)
    requires Invariant(s) && s.pool.lastUpdate == s.epoch && InService(s, vote, i)
    ensures RemoveValidator(s, vote) == Ok(s') <==> Removes(s, i, vote, s')
  {
    ServiceIsStaked(s, vote, i);
    var e := s.validators[i];
    var va, ta := e.ValidatorAddress(), e.TransientAddress();
    StoppingIs(s.accounts, va, s.epoch);
    if e.transient > 0 {
      assert SoundAccount(s.accounts[ta]);
      StoppingIs(s.accounts, ta, s.epoch);
      StoppingIs(Deactivated(s.accounts, ta, s.epoch), va, s.epoch);
    }
  }

  /** A validator is removed exactly if it is in service, and then its stakes are on their way out. */
  lemma RemoveIff(s: State, vote: Pubkey, s': State)
    requires Invariant(s)
    ensures RemoveValidator(s, vote) == Ok(s') <==> exists i :: Removes(s, i, vote, s')
  {
    if RemoveValidator(s, vote) == Ok(s') {
      RemovedIff(s, Find(s, vote).value, vote, s');
    }
    forall i | Removes(s, i, vote, s')
      ensures RemoveValidator(s, vote) == Ok(s')
    {
      RemovedIff(s, i, vote, s');
    }
  }

  // ---------------------------------------------------------------------------------------
  // New pools
  // ---------------------------------------------------------------------------------------

  /** A list account of this size has room for so many entries and not for one more. */
  ghost predicate RoomFor(entries: nat, bytes: nat) {
    var header := LIST_HEADER_BYTES + BigVecs.PREFIX;
    header + entries * Bytes.RECORD <= bytes < header + (entries + 1) * Bytes.RECORD
  }

  /** A pool is set up exactly if its list is sized as promised, no fee is above one and the reserve holds its rent. */
  lemma InitializeIff(epochFee: Fee, withdrawalFee: Fee, depositFee: Fee, referralFee: nat, maxValidators: nat,
                      listBytes: nat, reserve: u64, epoch: nat, chain: Chain)
    ensures Initialize(epochFee, withdrawalFee, depositFee, referralFee, maxValidators, listBytes, reserve, epoch,
                       chain).Ok?
            <==> && 0 < maxValidators <= MAX_VALIDATORS_IN_POOL && RoomFor(maxValidators, listBytes)
                 && ValidFee(epochFee) && ValidFee(withdrawalFee) && ValidFee(depositFee) && referralFee <= 100
                 && chain.reserveRent <= reserve
  {
    if maxValidators > 0 && RoomFor(maxValidators, listBytes) {
      FloorUnique(listBytes - LIST_HEADER_BYTES - BigVecs.PREFIX, Bytes.RECORD, maxValidators);
    }
  }
}
