/** The on-chain state a stake pool works on: its records, stake accounts and token supply. */
module World {
  import opened Base
  import opened Pricing
  import opened Fees
  import opened Sums
  import opened Seqs

  const MINIMUM_ACTIVE_STAKE: nat := 1_000_000
  const MAX_VALIDATORS_IN_POOL: nat := 20_000

  /** The deactivation epoch of a stake that is not deactivating. */
  const EPOCH_MAX: nat := U64_MAX

  /** A public key, as the number its 32 bytes encode. */
  type Pubkey = nat

  /** Addresses derived from a vote account; distinct inputs give distinct addresses. */
  datatype Address =
    | ValidatorStake(vote: Pubkey, seed: nat)
    | TransientStake(vote: Pubkey, seed: nat)
    | EphemeralStake(seed: nat)

  datatype StakeStatus =
    | Active
    | DeactivatingTransient
    | ReadyForRemoval
    | DeactivatingValidator
    | DeactivatingAll
  {
    function RemoveValidatorStake(): StakeStatus {
      match this
      case DeactivatingAll => DeactivatingTransient
      case DeactivatingValidator => ReadyForRemoval
      case _ => this
    }

    function RemoveTransientStake(): StakeStatus {
      match this
      case DeactivatingAll => DeactivatingValidator
      case DeactivatingTransient => ReadyForRemoval
      case _ => this
    }

    /** Distance from the end of a removal. */
    function Rank(): nat {
      match this
      case Active => 3
      case DeactivatingAll => 2
      case DeactivatingTransient => 1
      case DeactivatingValidator => 1
      case ReadyForRemoval => 0
    }
  }

  /** One entry of the validator list. */
  datatype ValidatorStakeInfo = ValidatorStakeInfo(
    active: nat, transient: nat, lastUpdate: nat, transientSeed: nat,
    unused: nat, validatorSeed: nat, status: StakeStatus, vote: Pubkey)
  {
    function ValidatorAddress(): Address {
      ValidatorStake(vote, validatorSeed)
    }

    function TransientAddress(): Address {
      TransientStake(vote, transientSeed)
    }

    function AddressFor(transientStake: bool): Address {
      if transientStake then TransientAddress() else ValidatorAddress()
    }

    function Lamports(): nat {
      active + transient
    }

    predicate Removed() {
      status == ReadyForRemoval && active == 0 && transient == 0
    }
  }

  /** What the data of a stake account says. */
  datatype StakeState =
    | NotAStake
    | Initialized
    | Delegated(stake: nat, activation: nat, deactivation: nat)

  /** A stake account; `usable` says that the pool holds its authorities and its lockup matches. */
  datatype StakeAccount = StakeAccount(lamports: nat, usable: bool, rent: nat, state: StakeState)

  /** Stake accounts by address; an address without an account holds nothing. */
  type Accounts = map<Address, StakeAccount>

  function Balance(accounts: Accounts, a: Address): nat {
    if a in accounts then accounts[a].lamports else 0
  }

  /** The runtime drops an account that is left without lamports. */
  function Put(accounts: Accounts, a: Address, account: StakeAccount): Accounts {
    if account.lamports == 0 then accounts - {a} else accounts[a := account]
  }

  function EntryBalance(r: ValidatorStakeInfo, accounts: Accounts): nat {
    Balance(accounts, r.ValidatorAddress()) + Balance(accounts, r.TransientAddress())
  }

  /** Inactive for sure: deactivated in an earlier epoch, or never active at all. */
  predicate Inactive(state: StakeState, epoch: nat)
    requires state.Delegated?
  {
    state.deactivation < epoch || (state.activation == epoch && state.deactivation == epoch)
  }

  datatype Pool = Pool(
    totalLamports: nat,
    tokenSupply: nat,
    lastUpdate: nat,
    epochFee: Fee,
    nextEpochFee: FutureEpoch<Fee>,
    stakeDepositFee: Fee,
    stakeWithdrawalFee: Fee,
    nextStakeWithdrawalFee: FutureEpoch<Fee>,
    stakeReferralFee: nat,
    solDepositFee: Fee,
    solReferralFee: nat,
    solWithdrawalFee: Fee,
    nextSolWithdrawalFee: FutureEpoch<Fee>,
    lastEpochSupply: nat,
    lastEpochTotal: nat)

  /** Parameters of the chain that the pool reads and never changes. */
  datatype Chain = Chain(stakeRent: u64, stakeMinimumDelegation: u64, reserveRent: u64)
  {
    /** The delegation a pool account has to keep. */
    function MinimumDelegation(): nat {
      Max(stakeMinimumDelegation, MINIMUM_ACTIVE_STAKE)
    }
  }

  datatype State = State(
    pool: Pool,
    validators: seq<ValidatorStakeInfo>,
    maxValidators: nat,
    reserve: nat,
    accounts: Accounts,
    mintSupply: nat,
    epoch: nat,
    chain: Chain)

  // ---------------------------------------------------------------------------------------
  // Looking up and summing records
  // ---------------------------------------------------------------------------------------

  /** The first entry of a vote account, or the length of the list. */
  function IndexOf(validators: seq<ValidatorStakeInfo>, vote: Pubkey): (i: nat)
    ensures i <= |validators|
    ensures i < |validators| ==> validators[i].vote == vote
    ensures forall j :: 0 <= j < i ==> validators[j].vote != vote
  {
    if validators == [] then 0
    else if validators[0].vote == vote then 0
    else
      var k := IndexOf(validators[1..], vote);
      assert forall j :: 0 < j < 1 + k ==> validators[j] == validators[1..][j - 1];
      1 + k
  }

  ghost predicate Distinct(validators: seq<ValidatorStakeInfo>) {
    forall i, j :: 0 <= i < j < |validators| ==> validators[i].vote != validators[j].vote
  }

  /** Filtering keeps the order, so distinct entries stay distinct. */
  lemma {:induction false} FilterKeepsDistinct(validators: seq<ValidatorStakeInfo>, keep: ValidatorStakeInfo -> bool)
    requires Distinct(validators)
    ensures Distinct(Filter(validators, keep))
  {
    if validators != [] {
      var e, rest := validators[0], validators[1..];
      FilterKeepsDistinct(rest, keep);
      var kept := Filter(rest, keep);
      FilterHasOnly(rest, keep);
      forall j | 0 <= j < |kept|
        ensures kept[j].vote != e.vote
      {
        assert kept[j] in rest;
        var k :| 0 <= k < |rest| && rest[k] == kept[j];
        assert validators[k + 1] == rest[k];
      }
    }
  }

  function Staked(validators: seq<ValidatorStakeInfo>): seq<nat> {
    seq(|validators|, i requires 0 <= i < |validators| => validators[i].Lamports())
  }

  function Balances(validators: seq<ValidatorStakeInfo>, accounts: Accounts): seq<nat> {
    seq(|validators|, i requires 0 <= i < |validators| => EntryBalance(validators[i], accounts))
  }

  /** Every lamport the pool holds: the reserve and the accounts of all entries. */
  ghost function Holdings(s: State): nat {
    s.reserve + Sum(Balances(s.validators, s.accounts))
  }
}
