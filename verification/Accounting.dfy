/** The invariant every run of the pool keeps, and how a change of one entry keeps it. */
module Accounting {
  import opened Base
  import opened Pricing
  import opened Fees
  import opened Sums
  import opened World
  import opened ListUpdate

  ghost predicate Owns(e: ValidatorStakeInfo, a: Address) {
    a == e.ValidatorAddress() || a == e.TransientAddress()
  }

  /** Every stake account of the pool belongs to an entry of the list. */
  ghost predicate NoOrphans(validators: seq<ValidatorStakeInfo>, accounts: Accounts) {
    forall a {:trigger Owned(validators, a)} :: a in accounts ==> Owned(validators, a)
  }

  ghost predicate Owned(validators: seq<ValidatorStakeInfo>, a: Address) {
    exists i :: 0 <= i < |validators| && Owns(validators[i], a)
  }

  /** An account funded with the usual rent, and not deactivated in the future. */
  ghost predicate RegularAccount(account: StakeAccount, rent: nat, epoch: nat) {
    && account.rent == rent
    && (account.state.Delegated? ==> account.state.deactivation == EPOCH_MAX || account.state.deactivation <= epoch)
  }

  ghost predicate RegularAccounts(accounts: Accounts, rent: nat, epoch: nat) {
    forall a {:trigger RegularAccount(accounts[a], rent, epoch)} ::
      a in accounts ==> RegularAccount(accounts[a], rent, epoch)
  }

  /** An entry in order: its status is honest, and if it was refreshed this epoch so are its balances. */
  ghost predicate SoundEntry(e: ValidatorStakeInfo, accounts: Accounts, epoch: nat) {
    && StatusKept(e, accounts)
    && e.lastUpdate <= epoch
    && (e.lastUpdate == epoch ==> Agrees(e, accounts))
  }

  /** The validator list and the stake accounts fit together. */
  ghost predicate Registered(validators: seq<ValidatorStakeInfo>, accounts: Accounts, epoch: nat, rent: nat) {
    && Distinct(validators)
    && SoundAccounts(accounts)
    && RegularAccounts(accounts, rent, epoch)
    && NoOrphans(validators, accounts)
    && (forall i {:trigger SoundEntry(validators[i], accounts, epoch)} ::
          0 <= i < |validators| ==> SoundEntry(validators[i], accounts, epoch))
  }

  ghost predicate ValidNext(next: FutureEpoch<Fee>) {
    next != Nothing ==> ValidFee(next.value)
  }

  /** No fee, in force or pending, is above one, and no referral share above 100 percent. */
  ghost predicate ValidFees(p: Pool) {
    && ValidFee(p.epochFee) && ValidFee(p.stakeDepositFee) && ValidFee(p.solDepositFee)
    && ValidFee(p.stakeWithdrawalFee) && ValidFee(p.solWithdrawalFee)
    && ValidNext(p.nextEpochFee) && ValidNext(p.nextStakeWithdrawalFee) && ValidNext(p.nextSolWithdrawalFee)
    && p.stakeReferralFee <= 100 && p.solReferralFee <= 100
  }

  ghost predicate AllFresh(validators: seq<ValidatorStakeInfo>, epoch: nat) {
    forall i :: 0 <= i < |validators| ==> validators[i].lastUpdate == epoch
  }

  /** The recorded total is the reserve beyond its rent plus everything the records show. */
  ghost predicate Balanced(s: State) {
    && AllFresh(s.validators, s.epoch)
    && s.pool.totalLamports + s.chain.reserveRent == s.reserve + Sum(Staked(s.validators))
  }

  ghost predicate Invariant(s: State) {
    && |s.validators| <= s.maxValidators <= MAX_VALIDATORS_IN_POOL
    && Registered(s.validators, s.accounts, s.epoch, s.chain.stakeRent)
    && ValidFees(s.pool)
    && s.mintSupply <= s.pool.tokenSupply <= U64_MAX && s.pool.totalLamports <= U64_MAX
    && s.pool.lastUpdate <= s.epoch < EPOCH_MAX && s.chain.stakeRent > 0
    && (s.pool.lastUpdate == s.epoch ==> Balanced(s))
  }

  lemma EntryInOrder(s: State, i: nat)
    requires Invariant(s) && i < |s.validators|
    ensures SoundEntry(s.validators[i], s.accounts, s.epoch)
    ensures forall a :: Owns(s.validators[i], a) && a in s.accounts ==>
              SoundAccount(s.accounts[a]) && RegularAccount(s.accounts[a], s.chain.stakeRent, s.epoch)
  {
    assert SoundEntry(s.validators[i], s.accounts, s.epoch);
    forall a | Owns(s.validators[i], a) && a in s.accounts
      ensures SoundAccount(s.accounts[a]) && RegularAccount(s.accounts[a], s.chain.stakeRent, s.epoch)
    {
      assert SoundAccount(s.accounts[a]);
    }
  }

  /** When the pool is up to date, its recorded total is what its accounts really hold. */
  lemma UpToDateMeansAccounted(s: State)
    requires Invariant(s) && s.pool.lastUpdate == s.epoch
    ensures s.pool.totalLamports + s.chain.reserveRent == Holdings(s)
    ensures forall i :: 0 <= i < |s.validators| ==> Agrees(s.validators[i], s.accounts)
  {
    forall i | 0 <= i < |s.validators|
      ensures Agrees(s.validators[i], s.accounts)
    {
      assert SoundEntry(s.validators[i], s.accounts, s.epoch);
    }
    assert Staked(s.validators) == Balances(s.validators, s.accounts);
  }

  // ---------------------------------------------------------------------------------------
  // Changing one entry
  // ---------------------------------------------------------------------------------------

  /** Outside the accounts of the old and the new entry nothing changes. */
  ghost predicate OnlyOwned(before: Accounts, after: Accounts, e: ValidatorStakeInfo, e': ValidatorStakeInfo) {
    forall a {:trigger a in before} {:trigger a in after} ::
      !Owns(e, a) && !Owns(e', a) ==> (a in before <==> a in after) && (a in before ==> before[a] == after[a])
  }

  /** After a change every account of the entry is sound and is one the new entry owns. */
  ghost predicate OwnedSound(after: Accounts, e: ValidatorStakeInfo, e': ValidatorStakeInfo, rent: nat, epoch: nat) {
    forall a :: a in after && (Owns(e, a) || Owns(e', a)) ==>
      Owns(e', a) && SoundAccount(after[a]) && RegularAccount(after[a], rent, epoch)
  }

  lemma EntryChanged(validators: seq<ValidatorStakeInfo>, accounts: Accounts, epoch: nat, rent: nat,
                     i: nat, e': ValidatorStakeInfo, accounts': Accounts)
    requires Registered(validators, accounts, epoch, rent)
    requires i < |validators| && e'.vote == validators[i].vote
    requires OnlyOwned(accounts, accounts', validators[i], e')
    requires OwnedSound(accounts', validators[i], e', rent, epoch)
    requires SoundEntry(e', accounts', epoch)
    ensures Registered(validators[i := e'], accounts', epoch, rent)
  {
    var e, after := validators[i], validators[i := e'];
    forall a | a in accounts'
      ensures SoundAccount(accounts'[a]) && RegularAccount(accounts'[a], rent, epoch)
      ensures Owned(after, a)
    {
      if Owns(e, a) || Owns(e', a) {
        assert Owns(after[i], a);
      } else {
        assert Owned(validators, a) && SoundAccount(accounts[a]) && RegularAccount(accounts[a], rent, epoch);
        var j :| 0 <= j < |validators| && Owns(validators[j], a);
        assert Owns(after[j], a);
      }
    }
    forall j | 0 <= j < |after|
      ensures SoundEntry(after[j], accounts', epoch)
    {
      if j != i {
        var va, ta := after[j].ValidatorAddress(), after[j].TransientAddress();
        assert !Owns(e, va) && !Owns(e', va) && !Owns(e, ta) && !Owns(e', ta);
        assert SoundEntry(validators[j], accounts, epoch);
      }
    }
  }

  lemma StakedChanged(validators: seq<ValidatorStakeInfo>, i: nat, e': ValidatorStakeInfo)
    requires i < |validators|
    ensures Sum(Staked(validators[i := e'])) == Sum(Staked(validators)) - validators[i].Lamports() + e'.Lamports()
    ensures validators[i].Lamports() <= Sum(Staked(validators))
  {
    assert Staked(validators[i := e']) == Staked(validators)[i := e'.Lamports()];
    SumUpdate(Staked(validators), i, e'.Lamports());
  }

  lemma BalancesChanged(validators: seq<ValidatorStakeInfo>, accounts: Accounts, i: nat, e': ValidatorStakeInfo,
                        accounts': Accounts)
    requires Distinct(validators)
    requires i < |validators| && e'.vote == validators[i].vote
    requires OnlyOwned(accounts, accounts', validators[i], e')
    ensures Sum(Balances(validators[i := e'], accounts'))
            == Sum(Balances(validators, accounts)) - EntryBalance(validators[i], accounts) + EntryBalance(e', accounts')
    ensures EntryBalance(validators[i], accounts) <= Sum(Balances(validators, accounts))
  {
    var before, after := Balances(validators, accounts), Balances(validators[i := e'], accounts');
    forall j | 0 <= j < |validators| && j != i
      ensures after[j] == before[j]
    {
      var e := validators[j];
      assert !Owns(validators[i], e.ValidatorAddress()) && !Owns(e', e.ValidatorAddress());
      assert !Owns(validators[i], e.TransientAddress()) && !Owns(e', e.TransientAddress());
    }
    assert after == before[i := EntryBalance(e', accounts')];
    SumUpdate(before, i, EntryBalance(e', accounts'));
  }
}
