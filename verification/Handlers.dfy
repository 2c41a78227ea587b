/**
 * The instruction handlers as transitions of the state. A handler that fails leaves the state as
 * it was: the runtime rolls back everything it did.
 */
module Handlers {
  import opened Base
  import opened Pricing
  import opened Fees
  import opened Seqs
  import opened World
  import opened ListUpdate
  import Bytes
  import BigVecs

  // ---------------------------------------------------------------------------------------
  // Quotes
  // ---------------------------------------------------------------------------------------

  /** Pool tokens minted by a deposit, by recipient. */
  datatype Minted = Minted(user: nat, manager: nat, referrer: nat, total: nat)

  /** Every minted token has a recipient. */
  function SplitDeposit(tokens: nat, fee: nat, referral: nat, minimumOut: Option<nat>): (r: Result<Minted>)
    ensures r.Ok? ==> r.value.user + r.value.manager + r.value.referrer == r.value.total == tokens
  {
    var user :- Computed(CheckedSub(tokens, fee));
    var referrer :- Computed(ReferralFee(referral, fee));
    var manager :- Computed(CheckedSub(fee, referrer));
    :- Check(SatAdd(SatAdd(user, manager), referrer) == tokens, CalculationFailure);
    :- Check(user != 0, DepositTooSmall);
    :- Check(minimumOut.None? || minimumOut.value <= user, ExceededSlippage);
    Ok(Minted(user, manager, referrer, tokens))
  }

  function QuoteSolDeposit(p: Pool, lamports: nat, minimumOut: Option<nat>): (r: Result<Minted>)
    ensures r.Ok? ==> r.value.user + r.value.manager + r.value.referrer == r.value.total
  {
    var tokens :- Computed(TokensForDeposit(p.totalLamports, p.tokenSupply, lamports));
    var fee :- Computed(TokenFee(p.solDepositFee, tokens));
    SplitDeposit(tokens, fee, p.solReferralFee, minimumOut)
  }

  /** A stake deposit pays the stake fee on what it delegates and the SOL fee on the rest. */
  function QuoteStakeDeposit(p: Pool, lamports: nat, delegated: nat, minimumOut: Option<nat>): (r: Result<Minted>)
    ensures r.Ok? ==> r.value.user + r.value.manager + r.value.referrer == r.value.total
  {
    var tokens :- Computed(TokensForDeposit(p.totalLamports, p.tokenSupply, lamports));
    var fromStake :- Computed(TokensForDeposit(p.totalLamports, p.tokenSupply, delegated));
    var fromSol :- Computed(CheckedSub(tokens, fromStake));
    var stakeFee :- Computed(TokenFee(p.stakeDepositFee, fromStake));
    var solFee :- Computed(TokenFee(p.solDepositFee, fromSol));
    var fee :- Computed(CheckedAdd(stakeFee, solFee));
    SplitDeposit(tokens, fee, p.stakeReferralFee, minimumOut)
  }

  /** What a withdrawal burns and what it is worth. */
  datatype Redemption = Redemption(burnt: nat, lamports: nat)

  function QuoteWithdrawal(p: Pool, fee: Fee, tokens: nat, minimumOut: Option<nat>,
                           feeWaived: bool): Result<Redemption> {
    var charged :- if feeWaived then Ok(0) else Computed(TokenFee(fee, tokens));
    var burnt :- Computed(CheckedSub(tokens, charged));
    var lamports :- Computed(LamportsForWithdrawal(p.totalLamports, p.tokenSupply, burnt));
    :- Check(lamports != 0, WithdrawalTooSmall);
    :- Check(minimumOut.None? || minimumOut.value <= lamports, ExceededSlippage);
    Ok(Redemption(burnt, lamports))
  }

  // ---------------------------------------------------------------------------------------
  // Totals
  // ---------------------------------------------------------------------------------------

  /** Tokens minted or burnt, lamports gained or lost, all in checked arithmetic. */
  function Credit(s: State, lamports: nat, tokens: nat): Result<State> {
    if s.mintSupply + tokens > U64_MAX then Err(CalculationFailure) else
    var supply :- Computed(CheckedAdd(s.pool.tokenSupply, tokens));
    var total :- Computed(CheckedAdd(s.pool.totalLamports, lamports));
    Ok(s.(mintSupply := s.mintSupply + tokens, pool := s.pool.(tokenSupply := supply, totalLamports := total)))
  }

  function Debit(s: State, lamports: nat, tokens: nat): Result<State> {
    if tokens > s.mintSupply then Err(InsufficientFunds) else
    var supply :- Computed(CheckedSub(s.pool.tokenSupply, tokens));
    var total :- Computed(CheckedSub(s.pool.totalLamports, lamports));
    Ok(s.(mintSupply := s.mintSupply - tokens, pool := s.pool.(tokenSupply := supply, totalLamports := total)))
  }

  function SetEntry(s: State, i: nat, e: ValidatorStakeInfo, accounts: Accounts): State
    requires i < |s.validators|
  {
    s.(validators := s.validators[i := e], accounts := accounts)
  }

  predicate OutOfDate(s: State) {
    s.pool.lastUpdate < s.epoch
  }

  function Find(s: State, vote: Pubkey): (r: Result<nat>)
    ensures r.Ok? ==> r.value < |s.validators| && s.validators[r.value].vote == vote
    ensures r.Ok? <==> exists i :: 0 <= i < |s.validators| && s.validators[i].vote == vote
  {
    var i := IndexOf(s.validators, vote);
    if i < |s.validators| then Ok(i) else Err(ValidatorNotFound)
  }

  // ---------------------------------------------------------------------------------------
  // Deposits
  // ---------------------------------------------------------------------------------------

  function DepositSol(s: State, lamports: nat, minimumOut: Option<nat>): Result<State> {
    if OutOfDate(s) then Err(StakeListAndPoolOutOfDate) else
    var minted :- QuoteSolDeposit(s.pool, lamports, minimumOut);
    Credit(s.(reserve := s.reserve + lamports), lamports, minted.total)
  }

  /**
   * Deposit a stake account of `lamports` whose merge adds `delegated` to the validator's stake; the
   * rest ends up in the reserve.
   */
  function DepositStake(s: State, vote: Pubkey, lamports: nat, delegated: nat, minimumOut: Option<nat>): Result<State> {
    if OutOfDate(s) then Err(StakeListAndPoolOutOfDate) else
    var i :- Find(s, vote);
    var e := s.validators[i];
    var va := e.ValidatorAddress();
    :- Check(va in s.accounts && s.accounts[va].state.Delegated?, WrongStakeStake);
    :- Check(e.status == Active, ValidatorNotFound);
    DepositInto(s, i, lamports, delegated, minimumOut)
  }

  /** What is delegated joins the validator's stake, the rest the reserve. */
  function DepositInto(s: State, i: nat, lamports: nat, delegated: nat, minimumOut: Option<nat>): Result<State>
    requires i < |s.validators| && s.validators[i].ValidatorAddress() in s.accounts
    requires s.accounts[s.validators[i].ValidatorAddress()].state.Delegated?
  {
    var e := s.validators[i];
    var va := e.ValidatorAddress();
    var rest :- Computed(CheckedSub(lamports, delegated));
    var minted :- QuoteStakeDeposit(s.pool, lamports, delegated, minimumOut);
    var account := s.accounts[va];
    var account' := account.(lamports := account.lamports + delegated,
                             state := account.state.(stake := account.state.stake + delegated));
    var s1 := SetEntry(s, i, e.(active := account'.lamports), s.accounts[va := account']);
    Credit(s1.(reserve := s.reserve + rest), lamports, minted.total)
  }

  // ---------------------------------------------------------------------------------------
  // Withdrawals
  // ---------------------------------------------------------------------------------------

  function WithdrawSol(s: State, tokens: nat, minimumOut: Option<nat>, feeWaived: bool): Result<State> {
    if OutOfDate(s) then Err(StakeListAndPoolOutOfDate) else
    var q :- QuoteWithdrawal(s.pool, s.pool.solWithdrawalFee, tokens, minimumOut, feeWaived);
    var taken :- TakeFromReserve(s, q);
    Debit(taken.0, taken.1, q.burnt)
  }

  /** The state after lamports left the pool, and how many did; the totals are not debited yet. */
  type Taken = (State, nat)

  function TakeFromReserve(s: State, q: Redemption): Result<Taken> {
    if SatSub(s.reserve, q.lamports) < s.chain.reserveRent then Err(SolWithdrawalTooLarge) else
    :- Check(q.lamports <= s.reserve, InsufficientFunds);
    Ok((s.(reserve := s.reserve - q.lamports), q.lamports))
  }

  /** Where a stake withdrawal splits from. */
  datatype Source = Reserve | Account(address: Address)

  datatype WithdrawSource = FromActive | FromTransient | ValidatorRemoval

  predicate HasActive(validators: seq<ValidatorStakeInfo>, limit: nat) {
    exists e :: e in validators && e.active > limit && e.status == Active
  }

  predicate HasTransient(validators: seq<ValidatorStakeInfo>, limit: nat) {
    exists e :: e in validators && e.transient > limit && e.status == Active
  }

  /** Which account of the entry has to be used, given what other entries still hold. */
  function ChooseSource(e: ValidatorStakeInfo, hasActive: bool, hasTransient: bool): (WithdrawSource, Address) {
    if hasActive then (FromActive, e.ValidatorAddress())
    else if hasTransient || e.transient != 0 then (FromTransient, e.TransientAddress())
    else (ValidatorRemoval, e.ValidatorAddress())
  }

  function WithdrawStake(s: State, source: Source, tokens: nat, minimumOut: Option<nat>,
                         feeWaived: bool): Result<State> {
    if OutOfDate(s) then Err(StakeListAndPoolOutOfDate) else
    var q :- QuoteWithdrawal(s.pool, s.pool.stakeWithdrawalFee, tokens, minimumOut, feeWaived);
    var taken :- TakeStake(s, source, q);
    Debit(taken.0, taken.1, q.burnt)
  }

  /** Choose the account a withdrawal has to use and split the stake off it. */
  function TakeStake(s: State, source: Source, q: Redemption): Result<Taken> {
    if source.Account? && (source.address !in s.accounts || s.accounts[source.address].state.NotAStake?)
    then Err(WrongStakeStake)
    else
    var rent := if source.Account? then s.accounts[source.address].rent else s.chain.reserveRent;
    var required := SatAdd(rent, s.chain.MinimumDelegation());
    var perToken :- Computed(LamportsPerToken(s.pool.totalLamports, s.pool.tokenSupply));
    var limit := SatAdd(required, perToken);
    var hasActive := HasActive(s.validators, limit);
    var hasTransient := HasTransient(s.validators, limit);
    match source
    case Reserve =>
      :- Check(!hasActive && !hasTransient, StakeLamportsNotEqualToMinimum);
      TakeFromReserve(s, q)
    case Account(a) =>
      :- Check(s.accounts[a].state.Delegated?, WrongStakeStake);
      :- Check(!a.EphemeralStake?, InvalidStakeAccountAddress);
      var i :- Find(s, a.vote);
      TakeFromEntry(s, i, a, q, required, perToken, ChooseSource(s.validators[i], hasActive, hasTransient))
  }

  /** Split off the account of entry i that has to be used, which must be the one supplied. */
  function TakeFromEntry(s: State, i: nat, a: Address, q: Redemption, required: nat, perToken: nat,
                         choice: (WithdrawSource, Address)): Result<Taken>
    requires i < |s.validators| && a in s.accounts && s.accounts[a].state.Delegated?
    requires choice.1 == s.validators[i].AddressFor(choice.0 == FromTransient)
  {
    if a != choice.1 then Err(InvalidStakeAccountAddress)
    else if s.validators[i].status != Active then Err(ValidatorNotFound)
    else if choice.0 == ValidatorRemoval then TakeWholeAccount(s, i, q, perToken)
    else TakeFromAccount(s, i, q, required, choice.0)
  }

  /** The tokens can be burnt and both taken off the totals; this is found out before the record is edited. */
  function Payable(s: State, lamports: nat, tokens: nat): Outcome {
    match Debit(s, lamports, tokens)
    case Ok(_) => Pass
    case Err(error) => Fail(error)
  }

  /** Split part of an account off; the delegation shrinks with it. */
  function Reduced(account: StakeAccount, lamports: nat): StakeAccount
    requires lamports <= account.lamports && account.state.Delegated?
  {
    account.(lamports := account.lamports - lamports,
             state := account.state.(stake := SatSub(account.state.stake, lamports)))
  }

  function TakeFromAccount(s: State, i: nat, q: Redemption, required: nat, from: WithdrawSource): Result<Taken>
    requires i < |s.validators|
    requires var e := s.validators[i];
             var a := if from == FromActive then e.ValidatorAddress() else e.TransientAddress();
             a in s.accounts && s.accounts[a].state.Delegated?
  {
    var e := s.validators[i];
    var a := if from == FromActive then e.ValidatorAddress() else e.TransientAddress();
    var account := s.accounts[a];
    :- Check(SatSub(account.lamports, q.lamports) >= required, StakeLamportsNotEqualToMinimum);
    :- Check(q.lamports <= account.lamports, InsufficientFunds);
    :- Payable(s, q.lamports, q.burnt);
    var left :- Computed(CheckedSub(if from == FromActive then e.active else e.transient, q.lamports));
    var e' := if from == FromActive then e.(active := left) else e.(transient := left);
    Ok((SetEntry(s, i, e', Put(s.accounts, a, Reduced(account, q.lamports))), q.lamports))
  }

  /** Withdraw a whole validator account, truncating the redemption to what it holds. */
  function TakeWholeAccount(s: State, i: nat, q: Redemption, perToken: nat): Result<Taken>
    requires i < |s.validators| && s.validators[i].ValidatorAddress() in s.accounts
  {
    var e := s.validators[i];
    var va := e.ValidatorAddress();
    var lamports := s.accounts[va].lamports;
    :- Check(lamports <= q.lamports <= SatAdd(lamports, perToken), StakeLamportsNotEqualToMinimum);
    :- Payable(s, lamports, q.burnt);
    var left :- Computed(CheckedSub(e.active, lamports));
    :- Check(left == 0, StakeListAndPoolOutOfDate);
    Ok((SetEntry(s, i, e.(active := 0, status := ReadyForRemoval), s.accounts - {va}), lamports))
  }

  // ---------------------------------------------------------------------------------------
  // Moving stake between the reserve and the validators
  // ---------------------------------------------------------------------------------------

  /** Pending transient stake may only be topped up, through an ephemeral account and its own seed. */
  function CheckTransient(e: ValidatorStakeInfo, seed: nat, ephemeral: Option<nat>): Outcome {
    if e.transient == 0 then Pass
    else if ephemeral.None? then Fail(TransientAccountInUse)
    else Check(seed == e.transientSeed, InvalidSeeds)
  }

  /** The transient account of an increase: funded from the reserve, activating in this epoch. */
  function FundTransient(s: State, e: ValidatorStakeInfo, seed: nat, lamports: nat): (account: StakeAccount)
    requires e.transient > 0 ==> e.TransientAddress() in s.accounts && s.accounts[e.TransientAddress()].state.Delegated?
  {
    var total := lamports + s.chain.stakeRent;
    if e.transient > 0 then
      var account := s.accounts[e.TransientAddress()];
      account.(lamports := account.lamports + total,
               state := account.state.(stake := account.state.stake + total))
    else
      StakeAccount(total, true, s.chain.stakeRent, Delegated(lamports, s.epoch, EPOCH_MAX))
  }

  /** What an increase takes out of the reserve, if nothing stands in its way. */
  function IncreaseAmount(e: ValidatorStakeInfo, accounts: Accounts, reserve: nat, epoch: nat, chain: Chain,
                          lamports: nat, seed: nat, ephemeral: Option<nat>): (r: Result<nat>)
    ensures r.Ok? ==>
              && chain.stakeRent <= r.value <= reserve
              && (e.transient > 0 ==>
                    && seed == e.transientSeed && ephemeral.Some?
                    && e.TransientAddress() in accounts && accounts[e.TransientAddress()].state.Delegated?)
              && (e.transient == 0 ==> TransientStake(e.vote, seed) !in accounts)
              && (ephemeral.Some? ==> EphemeralStake(ephemeral.value) !in accounts)
  {
    var va, ta, total := e.ValidatorAddress(), TransientStake(e.vote, seed), SatAdd(lamports, chain.stakeRent);
    :- CheckTransient(e, seed, ephemeral);
    :- Check(e.transient > 0 ==>
               ta in accounts && accounts[ta].state.Delegated?
               && accounts[ta].state.deactivation == EPOCH_MAX && accounts[ta].state.activation == epoch,
             WrongStakeStake);
    :- Check(va in accounts && accounts[va].usable && accounts[va].state.Delegated?, WrongStakeStake);
    :- Check(e.status == Active, ValidatorNotFound);
    :- Check(lamports >= chain.MinimumDelegation(), InsufficientDelegation);
    :- Check(SatSub(reserve, total) >= chain.stakeRent, InsufficientFunds);
    :- Check(total <= reserve, InsufficientFunds);
    :- Check(ephemeral.None? || EphemeralStake(ephemeral.value) !in accounts, AccountInUse);
    :- Check(e.transient > 0 || ta !in accounts, AccountInUse);
    Ok(total)
  }

  function IncreaseValidatorStake(s: State, vote: Pubkey, lamports: nat, seed: nat,
                                  ephemeral: Option<nat>): Result<State> {
    if OutOfDate(s) then Err(StakeListAndPoolOutOfDate) else
    var i :- Find(s, vote);
    var e := s.validators[i];
    var total :- IncreaseAmount(e, s.accounts, s.reserve, s.epoch, s.chain, lamports, seed, ephemeral);
    IncreaseBy(s, i, seed, total)
  }

  /** Lamports of the reserve move to the transient account of entry i. */
  function IncreaseBy(s: State, i: nat, seed: nat, total: nat): Result<State>
    requires i < |s.validators| && s.chain.stakeRent <= total <= s.reserve
    requires var e := s.validators[i];
             e.transient > 0 ==> e.TransientAddress() in s.accounts && s.accounts[e.TransientAddress()].state.Delegated?
  {
    var e := s.validators[i];
    var transient :- Computed(CheckedAdd(e.transient, total));
    var account := FundTransient(s, e, seed, total - s.chain.stakeRent);
    var e' := e.(transient := transient, transientSeed := seed);
    Ok(SetEntry(s, i, e', s.accounts[TransientStake(e.vote, seed) := account]).(reserve := s.reserve - total))
  }

  /** The rent a decrease takes out of the reserve, if nothing stands in its way. */
  function DecreaseRent(e: ValidatorStakeInfo, accounts: Accounts, reserve: nat, epoch: nat, chain: Chain,
                        lamports: nat, seed: nat, ephemeral: Option<nat>, fundRent: bool): (r: Result<nat>)
    ensures r.Ok? ==>
              && r.value <= reserve
              && e.ValidatorAddress() in accounts && accounts[e.ValidatorAddress()].state.Delegated?
              && lamports <= accounts[e.ValidatorAddress()].lamports
              && (e.transient > 0 ==>
                    && seed == e.transientSeed && ephemeral.Some?
                    && TransientStake(e.vote, seed) in accounts
                    && accounts[TransientStake(e.vote, seed)].state.Delegated?)
              && (e.transient == 0 ==> TransientStake(e.vote, seed) !in accounts)
              && (ephemeral.Some? ==> EphemeralStake(ephemeral.value) !in accounts)
  {
    var va, ta, rent := e.ValidatorAddress(), TransientStake(e.vote, seed), if fundRent then chain.stakeRent else 0;
    :- Check(va in accounts && accounts[va].state.Delegated?, WrongStakeStake);
    :- CheckTransient(e, seed, ephemeral);
    :- Check(e.transient > 0 ==>
               ta in accounts && accounts[ta].state.Delegated? && accounts[ta].state.deactivation == epoch,
             WrongStakeStake);
    :- Check(e.status == Active, ValidatorNotFound);
    :- Check(lamports >= chain.MinimumDelegation(), AccountNotRentExempt);
    :- Check(lamports <= accounts[va].lamports, InsufficientFunds);
    :- Check(accounts[va].lamports - lamports >= SatAdd(accounts[va].rent, chain.MinimumDelegation()),
             InsufficientFunds);
    :- Check(ephemeral.None? || EphemeralStake(ephemeral.value) !in accounts, AccountInUse);
    :- Check(fundRent && (rent > 0 || ephemeral.None?) ==> rent < reserve, ReserveDepleted);
    :- Check(e.transient > 0 || ta !in accounts, AccountInUse);
    Ok(rent)
  }

  function DecreaseValidatorStake(s: State, vote: Pubkey, lamports: nat, seed: nat, ephemeral: Option<nat>,
                                  fundRent: bool)
    : Result<State>
  {
    if OutOfDate(s) then Err(StakeListAndPoolOutOfDate) else
    var i :- Find(s, vote);
    var e := s.validators[i];
    var rent :- DecreaseRent(e, s.accounts, s.reserve, s.epoch, s.chain, lamports, seed, ephemeral, fundRent);
    DecreaseBy(s, i, seed, lamports, rent)
  }

  /** Lamports of the validator account, and rent of the reserve, move to the transient account of entry i. */
  function DecreaseBy(s: State, i: nat, seed: nat, lamports: nat, rent: nat): Result<State>
    requires i < |s.validators| && rent <= s.reserve
    requires var e := s.validators[i];
             && e.ValidatorAddress() in s.accounts && s.accounts[e.ValidatorAddress()].state.Delegated?
             && lamports <= s.accounts[e.ValidatorAddress()].lamports
             && (e.transient > 0 ==>
                   && TransientStake(e.vote, seed) in s.accounts
                   && s.accounts[TransientStake(e.vote, seed)].state.Delegated?)
  {
    var e := s.validators[i];
    var va, ta := e.ValidatorAddress(), TransientStake(e.vote, seed);
    var from, into := s.accounts[va], DecreasedInto(s, e, seed, lamports + rent, s.accounts[va]);
    var left :- Computed(CheckedSub(e.active, lamports));
    var e' := e.(active := left, transient := into.lamports, transientSeed := seed);
    Ok(SetEntry(s, i, e', s.accounts[va := Reduced(from, lamports)][ta := into]).(reserve := s.reserve - rent))
  }

  /** The transient account of a decrease: split off the validator's, deactivating in this epoch. */
  function DecreasedInto(s: State, e: ValidatorStakeInfo, seed: nat, moved: nat,
                         from: StakeAccount): (account: StakeAccount)
    requires from.state.Delegated?
    requires e.transient > 0 ==>
               TransientStake(e.vote, seed) in s.accounts && s.accounts[TransientStake(e.vote, seed)].state.Delegated?
  {
    var stake := SatSub(moved, s.chain.stakeRent);
    if e.transient > 0 then
      var account := s.accounts[TransientStake(e.vote, seed)];
      account.(lamports := account.lamports + moved, state := account.state.(stake := account.state.stake + stake))
    else
      StakeAccount(moved, from.usable, s.chain.stakeRent,
                   from.state.(stake := stake,
                               deactivation := if from.state.deactivation == EPOCH_MAX then s.epoch
                                               else from.state.deactivation))
  }

  // ---------------------------------------------------------------------------------------
  // The validator list
  // ---------------------------------------------------------------------------------------

  function AddValidator(s: State, vote: Pubkey, seed: nat): Result<State> {
    if OutOfDate(s) then Err(StakeListAndPoolOutOfDate) else
    :- Check(s.maxValidators != |s.validators|, AccountDataTooSmall);
    :- Check(|s.validators| < MAX_VALIDATORS_IN_POOL, TooManyValidatorsInPool);
    :- Check(Find(s, vote).Err?, ValidatorAlreadyAdded);
    var required := SatAdd(s.chain.MinimumDelegation(), s.chain.stakeRent);
    :- Check(SatSub(s.reserve, required) >= s.chain.reserveRent, InsufficientFunds);
    :- Check(required <= s.reserve, InsufficientFunds);
    var e := ValidatorStakeInfo(required, 0, s.epoch, 0, 0, seed, Active, vote);
    var va := e.ValidatorAddress();
    :- Check(va !in s.accounts, AccountInUse);
    var account := StakeAccount(required, true, s.chain.stakeRent,
                                Delegated(SatSub(required, s.chain.stakeRent), s.epoch, EPOCH_MAX));
    Ok(s.(validators := s.validators + [e], accounts := s.accounts[va := account], reserve := s.reserve - required))
  }

  function Deactivated(accounts: Accounts, a: Address, epoch: nat): Accounts {
    if a in accounts && accounts[a].state.Delegated? && accounts[a].state.deactivation == EPOCH_MAX then
      accounts[a := accounts[a].(state := accounts[a].state.(deactivation := epoch))]
    else accounts
  }

  function RemoveValidator(s: State, vote: Pubkey): Result<State> {
    if OutOfDate(s) then Err(StakeListAndPoolOutOfDate) else
    var i :- Find(s, vote);
    var e := s.validators[i];
    var va, ta := e.ValidatorAddress(), e.TransientAddress();
    :- Check(va in s.accounts && s.accounts[va].state.Delegated?, WrongStakeStake);
    :- Check(e.status == Active, ValidatorNotFound);
    var withTransient := e.transient > 0;
    var accounts1 :=
      if withTransient && ta in s.accounts && s.accounts[ta].usable then Deactivated(s.accounts, ta, s.epoch)
      else s.accounts;
    Ok(SetEntry(s, i, e.(status := if withTransient then DeactivatingAll else DeactivatingValidator),
                Deactivated(accounts1, va, s.epoch)))
  }

  function UpdateList(s: State, start: nat, pairs: seq<AccountPair>, noMerge: bool): Result<State> {
    if start + |pairs| > |s.validators| then Err(AccountDataTooSmall) else
    Ok(RefreshChunk(s, start, pairs, noMerge))
  }

  predicate Kept(e: ValidatorStakeInfo) {
    !e.Removed()
  }

  function Cleanup(s: State): State {
    s.(validators := Filter(s.validators, Kept))
  }

  // ---------------------------------------------------------------------------------------
  // The pool balance
  // ---------------------------------------------------------------------------------------

  /** `sum` plus the lamports of every entry, provided all are fresh. */
  function TotalStake(validators: seq<ValidatorStakeInfo>, epoch: nat, sum: nat): Result<nat> {
    if validators == [] then Ok(sum)
    else
      var e := validators[0];
      :- Check(e.lastUpdate >= epoch, StakeListOutOfDate);
      :- Check(e.Lamports() <= U64_MAX, CalculationFailure);
      var sum' :- Computed(CheckedAdd(sum, e.Lamports()));
      TotalStake(validators[1..], epoch, sum')
  }

  /** At the first update of an epoch the pending fees move one epoch closer. */
  function AdvanceFees(p: Pool, epoch: nat): Pool {
    if p.lastUpdate >= epoch then p
    else
      p.(epochFee := if p.nextEpochFee.One? then p.nextEpochFee.value else p.epochFee,
         nextEpochFee := p.nextEpochFee.Advance(),
         stakeWithdrawalFee := if p.nextStakeWithdrawalFee.One? then p.nextStakeWithdrawalFee.value
                               else p.stakeWithdrawalFee,
         nextStakeWithdrawalFee := p.nextStakeWithdrawalFee.Advance(),
         solWithdrawalFee := if p.nextSolWithdrawalFee.One? then p.nextSolWithdrawalFee.value else p.solWithdrawalFee,
         nextSolWithdrawalFee := p.nextSolWithdrawalFee.Advance(),
         lastUpdate := epoch,
         lastEpochTotal := p.totalLamports,
         lastEpochSupply := p.tokenSupply)
  }

  function UpdateBalance(s: State, feeAccountValid: bool): Result<State> {
    var base :- Computed(CheckedSub(s.reserve, s.chain.reserveRent));
    var total :- TotalStake(s.validators, s.epoch, base);
    var reward := SatSub(total, s.pool.totalLamports);
    var fee :-
      if !feeAccountValid then Ok(0)
      else Computed(EpochFeeTokens(s.pool.totalLamports, s.pool.tokenSupply, s.pool.epochFee, reward));
    :- Check(s.mintSupply + fee <= U64_MAX, CalculationFailure);
    Ok(s.(mintSupply := s.mintSupply + fee,
          pool := AdvanceFees(s.pool, s.epoch).(totalLamports := total, tokenSupply := s.mintSupply + fee)))
  }

  // ---------------------------------------------------------------------------------------
  // Fees and initialization
  // ---------------------------------------------------------------------------------------

  function UpdateFee(p: Pool, fee: FeeType): Result<Pool> {
    match fee
    case SolReferral(percent) => Ok(p.(solReferralFee := percent))
    case StakeReferral(percent) => Ok(p.(stakeReferralFee := percent))
    case EpochReward(f) => Ok(p.(nextEpochFee := Two(f)))
    case StakeWithdrawal(f) =>
      :- CheckWithdrawal(p.stakeWithdrawalFee, f);
      Ok(p.(nextStakeWithdrawalFee := Two(f)))
    case SolWithdrawal(f) =>
      :- CheckWithdrawal(p.solWithdrawalFee, f);
      Ok(p.(nextSolWithdrawalFee := Two(f)))
    case SolDeposit(f) => Ok(p.(solDepositFee := f))
    case StakeDeposit(f) => Ok(p.(stakeDepositFee := f))
  }

  function SetFee(s: State, fee: FeeType): Result<State> {
    if fee.OnlyNextEpoch() && OutOfDate(s) then Err(StakeListAndPoolOutOfDate) else
    :- Check(!fee.TooHigh(), FeeTooHigh);
    var pool :- UpdateFee(s.pool, fee);
    Ok(s.(pool := pool))
  }

  const LIST_HEADER_BYTES: nat := 5

  /** The number of entries that fit a list account of the given size. */
  function MaxValidators(bytes: nat): nat {
    SatSub(bytes, LIST_HEADER_BYTES + BigVecs.PREFIX) / Bytes.RECORD
  }

  function Initialize(epochFee: Fee, withdrawalFee: Fee, depositFee: Fee, referralFee: nat,
                      maxValidators: nat, listBytes: nat, reserve: u64, epoch: nat, chain: Chain): Result<State>
  {
    if maxValidators != MaxValidators(listBytes) || maxValidators == 0 then Err(UnexpectedValidatorListAccountSize) else
    :- Check(maxValidators <= MAX_VALIDATORS_IN_POOL, TooManyValidatorsInPool);
    :- Check(ValidFee(epochFee) && ValidFee(withdrawalFee) && ValidFee(depositFee) && referralFee <= 100, FeeTooHigh);
    var total :- Computed(CheckedSub(reserve, chain.reserveRent));
    Ok(State(Pool(total, total, epoch, epochFee, Nothing, depositFee, withdrawalFee, Nothing, referralFee,
                  depositFee, referralFee, withdrawalFee, Nothing, 0, 0),
             [], maxValidators, reserve, map[], total, epoch, chain))
  }

  // ---------------------------------------------------------------------------------------
  // Steps
  // ---------------------------------------------------------------------------------------

  /** A public key of 32 bytes. */
  type Key = vote: Pubkey | Bytes.Fits(vote, Bytes.KEY) witness Bytes.ZeroKey()

  predicate NamesAKey(source: Source) {
    source.Account? && !source.address.EphemeralStake? ==> Bytes.Fits(source.address.vote, Bytes.KEY)
  }

  type KeyedSource = source: Source | NamesAKey(source) witness Reserve

  datatype Instruction =
    | InDepositSol(lamports: u64, minimumOut: Option<nat>)
    | InDepositStake(vote: Key, lamports: u64, delegated: u64, minimumOut: Option<nat>)
    | InWithdrawSol(tokens: u64, minimumOut: Option<nat>, feeWaived: bool)
    | InWithdrawStake(source: KeyedSource, tokens: u64, minimumOut: Option<nat>, feeWaived: bool)
    | InIncrease(vote: Key, lamports: u64, seed: u64, ephemeral: Option<nat>)
    | InDecrease(vote: Key, lamports: u64, seed: u64, ephemeral: Option<nat>, fundRent: bool)
    | InAddValidator(vote: Key, validatorSeed: u32)
    | InRemoveValidator(vote: Key)
    | InUpdateList(start: nat, pairs: seq<AccountPair>, noMerge: bool)
    | InUpdateBalance(feeAccountValid: bool)
    | InCleanup
    | InSetFee(fee: FeeType)

  function Apply(s: State, op: Instruction): Result<State> {
    match op
    case InDepositSol(lamports, minimumOut) => DepositSol(s, lamports, minimumOut)
    case InDepositStake(vote, lamports, delegated, minimumOut) => DepositStake(s, vote, lamports, delegated, minimumOut)
    case InWithdrawSol(tokens, minimumOut, feeWaived) => WithdrawSol(s, tokens, minimumOut, feeWaived)
    case InWithdrawStake(source, tokens, minimumOut, feeWaived) =>
      WithdrawStake(s, source, tokens, minimumOut, feeWaived)
    case InIncrease(vote, lamports, seed, ephemeral) => IncreaseValidatorStake(s, vote, lamports, seed, ephemeral)
    case InDecrease(vote, lamports, seed, ephemeral, fundRent) =>
      DecreaseValidatorStake(s, vote, lamports, seed, ephemeral, fundRent)
    case InAddValidator(vote, seed) => AddValidator(s, vote, seed)
    case InRemoveValidator(vote) => RemoveValidator(s, vote)
    case InUpdateList(start, pairs, noMerge) => UpdateList(s, start, pairs, noMerge)
    case InUpdateBalance(feeAccountValid) => UpdateBalance(s, feeAccountValid)
    case InCleanup => Ok(Cleanup(s))
    case InSetFee(fee) => SetFee(s, fee)
  }
}
