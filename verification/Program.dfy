/**
 * The program itself: handlers that change the pool, the bytes of its validator list and its accounts
 * step by step, calling the stake and token programs. Each is proved against its transition in `Handlers`.
 */
module Program {
  import opened Base
  import opened Pricing
  import opened Fees
  import opened Seqs
  import opened World
  import opened Bytes
  import opened BigVecs
  import opened ListUpdate
  import opened Accounting
  import opened Handlers
  import opened Steps
  import opened ListRange
  import opened ListBytes

  /** A handler that returned `r` and left the state `now` did what the transition says. */
  predicate Refines(transition: Result<State>, r: Result<()>, now: State) {
    match r
    case Ok(_) => transition == Ok(now)
    case Err(error) => transition == Err(error)
  }

  /** Lamports taken out of the pool, and what was burnt for them. */
  function Debited(taken: Result<Taken>, burnt: nat): Result<State> {
    var t :- taken;
    Debit(t.0, t.1, burnt)
  }

  /** A record of the list: where it starts and what it says. */
  datatype Located = Located(at: nat, entry: ValidatorStakeInfo)

  // ---------------------------------------------------------------------------------------
  // What setting a fee means
  // ---------------------------------------------------------------------------------------

  /**
   * The fees that may be set: at most one, not too far above the fee in force, and only in an up-to-date pool
   * if deferred.
   */
  ghost predicate Settable(s: State, fee: FeeType) {
    && (fee.OnlyNextEpoch() ==> s.epoch <= s.pool.lastUpdate)
    && (if fee.SolReferral? || fee.StakeReferral? then fee.percent <= 100 else ValidFee(fee.fee))
    && (fee.StakeWithdrawal? ==> Passes(s.pool.stakeWithdrawalFee, fee.fee))
    && (fee.SolWithdrawal? ==> Passes(s.pool.solWithdrawalFee, fee.fee))
  }

  /** The fee in force stays for two more updates that open an epoch, and is `fee` from then on. */
  ghost predicate ComesAfterTwo(current: Fee, schedule: Schedule, fee: Fee) {
    schedule.current == schedule.Advance().current == current && schedule.Advance().Advance() == Schedule(fee, Nothing)
  }

  /** Exactly the one fee changes: a deposit fee or a referral share at once, any other after two epochs. */
  ghost predicate FeeSet(p: Pool, fee: FeeType, p': Pool) {
    match fee
    case SolReferral(percent) => p' == p.(solReferralFee := percent)
    case StakeReferral(percent) => p' == p.(stakeReferralFee := percent)
    case SolDeposit(f) => p' == p.(solDepositFee := f)
    case StakeDeposit(f) => p' == p.(stakeDepositFee := f)
    case EpochReward(f) =>
      p' == p.(nextEpochFee := p'.nextEpochFee) && ComesAfterTwo(p.epochFee, Schedule(p'.epochFee, p'.nextEpochFee), f)
    case StakeWithdrawal(f) =>
      && p' == p.(nextStakeWithdrawalFee := p'.nextStakeWithdrawalFee)
      && ComesAfterTwo(p.stakeWithdrawalFee, Schedule(p'.stakeWithdrawalFee, p'.nextStakeWithdrawalFee), f)
    case SolWithdrawal(f) =>
      && p' == p.(nextSolWithdrawalFee := p'.nextSolWithdrawalFee)
      && ComesAfterTwo(p.solWithdrawalFee, Schedule(p'.solWithdrawalFee, p'.nextSolWithdrawalFee), f)
  }

  class StakePool {
    var pool: Pool
    const list: BigVec
    ghost var validators: seq<ValidatorStakeInfo>
    var reserve: nat
    var accounts: Accounts
    var mintSupply: nat
    var epoch: nat
    const maxValidators: nat
    const chain: Chain

    constructor (s: State, buffer: BigVec)
      requires Shows(buffer, s.validators) && |s.validators| <= s.maxValidators
      requires PREFIX + s.maxValidators * RECORD <= buffer.data.Length
      ensures Value() == s && list == buffer && Valid()
    {
      pool, list, validators, reserve, accounts := s.pool, buffer, s.validators, s.reserve, s.accounts;
      mintSupply, epoch, maxValidators, chain := s.mintSupply, s.epoch, s.maxValidators, s.chain;
    }

    ghost function Value(): State
      reads this
    {
      State(pool, validators, maxValidators, reserve, accounts, mintSupply, epoch, chain)
    }

    /** The bytes of the list show its entries, with room for as many as the pool may have. */
    ghost predicate Valid()
      reads this, list.data
    {
      && Shows(list, validators) && |validators| <= maxValidators
      && PREFIX + maxValidators * RECORD <= list.data.Length
    }

    /** And every entry can be read back. */
    ghost predicate Readable()
      reads this, list.data
    {
      Valid() && AllInRange(validators)
    }

    // -------------------------------------------------------------------------------------
    // The records
    // -------------------------------------------------------------------------------------

    method Lookup(vote: Key) returns (r: Result<Located>, ghost i: nat)
      requires Readable()
      ensures i == IndexOf(validators, vote)
      ensures r == if i == |validators| then Err(ValidatorNotFound) else Ok(Located(PREFIX + i * RECORD, validators[i]))
    {
      i := IndexOf(validators, vote);
      var at := FindVote(list, vote, validators);
      if at.None? {
        return Err(ValidatorNotFound), i;
      }
      var e := ReadEntry(list, at.value, validators, i);
      return Ok(Located(at.value, e)), i;
    }

    method Write(at: nat, e: ValidatorStakeInfo, ghost i: nat)
      requires Valid() && i < |validators| && at == PREFIX + i * RECORD
      modifies this`validators, list.data
      ensures Valid() && validators == old(validators)[i := e]
    {
      StoreEntry(list, at, e, validators, i);
      validators := validators[i := e];
    }

    // -------------------------------------------------------------------------------------
    // Calls into the token and stake programs
    // -------------------------------------------------------------------------------------

    method MintTo(tokens: nat) returns (r: Result<()>)
      modifies this`mintSupply
      ensures r == if old(mintSupply) + tokens <= U64_MAX then Ok(()) else Err(CalculationFailure)
      ensures mintSupply == old(mintSupply) + if r.Ok? then tokens else 0
    {
      var supply := mintSupply + tokens;
      :- Check(supply <= U64_MAX, CalculationFailure);
      mintSupply := supply;
      return Ok(());
    }

    method Burn(tokens: nat) returns (r: Result<()>)
      modifies this`mintSupply
      ensures r == if tokens <= old(mintSupply) then Ok(()) else Err(InsufficientFunds)
      ensures mintSupply == old(mintSupply) - if r.Ok? then tokens else 0
    {
      var enough := tokens <= mintSupply;
      :- Check(enough, InsufficientFunds);
      mintSupply := mintSupply - tokens;
      return Ok(());
    }

    /** Merge a stake account into the reserve. */
    method MergeIntoReserve(a: Address)
      modifies this`reserve, this`accounts
      ensures reserve == old(reserve) + Balance(old(accounts), a) && accounts == old(accounts) - {a}
    {
      reserve := reserve + Balance(accounts, a);
      accounts := accounts - {a};
    }

    /** Merge an active stake account into another one. */
    method Merge(source: Address, target: Address)
      requires source in accounts && target in accounts && source != target
      requires accounts[source].state.Delegated? && accounts[target].state.Delegated?
      modifies this`accounts
      ensures accounts == MergeStake(old(accounts), source, target)
    {
      accounts := MergeStake(accounts, source, target);
    }

    method Deactivate(a: Address)
      requires a in accounts && accounts[a].state.Delegated?
      modifies this`accounts
      ensures accounts == old(accounts)[a := old(accounts[a].(state := accounts[a].state.(deactivation := epoch)))]
    {
      accounts := accounts[a := accounts[a].(state := accounts[a].state.(deactivation := epoch))];
    }

    /** Withdraw lamports of a stake account to the reserve. */
    method WithdrawToReserve(a: Address, lamports: nat)
      requires a in accounts && lamports <= accounts[a].lamports
      modifies this`reserve, this`accounts
      ensures reserve == old(reserve) + lamports
      ensures accounts == Put(old(accounts), a, old(accounts[a].(lamports := accounts[a].lamports - lamports)))
    {
      reserve := reserve + lamports;
      accounts := Put(accounts, a, accounts[a].(lamports := accounts[a].lamports - lamports));
    }

    // -------------------------------------------------------------------------------------
    // Updating the list
    // -------------------------------------------------------------------------------------

    /** Only entry i, the reserve and the stake accounts differ from `before`. */
    ghost predicate AsBooked(before: State, i: nat, b: Books)
      requires i < |before.validators|
      reads this
    {
      Value() == before.(validators := before.validators[i := b.entry], reserve := b.reserve, accounts := b.accounts)
    }

    method UpdateTransient(at: nat, e: ValidatorStakeInfo, noMerge: bool, ghost i: nat)
      returns (e': ValidatorStakeInfo, transientLamports: nat)
      requires Valid() && i < |validators| && at == PREFIX + i * RECORD && e == validators[i]
      modifies this`reserve, this`accounts, this`validators, list.data
      ensures Valid() && i < |validators| && e' == validators[i] && (InRange(e) ==> InRange(e'))
      ensures var (b, n) := RefreshTransient(Books(e, old(reserve), old(accounts)), epoch, noMerge);
              AsBooked(old(Value()), i, b) && transientLamports == n
    {
      var ta := e.TransientAddress();
      e', transientLamports := e, 0;
      if e.transient != 0 && ta in accounts && accounts[ta].usable {
        match accounts[ta].state
        case NotAStake =>
        case Initialized =>
          if noMerge {
            transientLamports := Balance(accounts, ta);
          } else {
            MergeIntoReserve(ta);
            e' := e.(status := e.status.RemoveTransientStake());
          }
        case Delegated(_, activation, deactivation) =>
          if !noMerge {
            if Inactive(accounts[ta].state, epoch) {
              MergeIntoReserve(ta);
              e' := e.(status := e.status.RemoveTransientStake());
            } else if e.status == Active {
              var va := e.ValidatorAddress();
              if activation < epoch && va in accounts && accounts[va].state.Delegated?
                 && accounts[va].state.activation < epoch {
                Merge(ta, va);
              }
            } else if deactivation == EPOCH_MAX {
              Deactivate(ta);
            }
          }
          transientLamports := Balance(accounts, ta);
      }
      Write(at, e', i);
    }

    method UpdateValidator(at: nat, e: ValidatorStakeInfo, transientLamports: nat, noMerge: bool, ghost i: nat)
      returns (e': ValidatorStakeInfo, activeLamports: nat)
      requires Valid() && i < |validators| && at == PREFIX + i * RECORD && e == validators[i]
      modifies this`reserve, this`accounts, this`validators, list.data
      ensures Valid() && i < |validators| && e' == validators[i]
      ensures var (b, n) := RefreshValidator(Books(e, old(reserve), old(accounts)), transientLamports, epoch, noMerge);
              AsBooked(old(Value()), i, b) && activeLamports == n
    {
      var va := e.ValidatorAddress();
      e', activeLamports := e, 0;
      if va in accounts && accounts[va].usable {
        var state := accounts[va].state;
        match state
        case NotAStake =>
        case Initialized =>
          MergeIntoReserve(va);
          e' := e.(status := if transientLamports != 0 then DeactivatingTransient else ReadyForRemoval);
        case Delegated(_, _, _) =>
          // Withdrawing nothing leaves a funded account as it is.
          WithdrawToReserve(va, Excess(accounts[va]));
          match e.status
          case Active =>
            activeLamports := Balance(accounts, va);
          case DeactivatingValidator | DeactivatingAll =>
            if noMerge {
              activeLamports := Balance(accounts, va);
            } else if Inactive(state, epoch) {
              MergeIntoReserve(va);
              e' := e.(status := e.status.RemoveValidatorStake());
            } else {
              activeLamports := Balance(accounts, va);
            }
          case DeactivatingTransient | ReadyForRemoval =>
      }
      Write(at, e', i);
    }

    /** Refresh one record against its accounts, skipping it when they are not its own. */
    method UpdateRecord(at: nat, pair: AccountPair, noMerge: bool, ghost i: nat)
      requires Valid() && i < |validators| && at == PREFIX + i * RECORD && InRange(validators[i])
      modifies this`reserve, this`accounts, this`validators, list.data
      ensures Valid() && Value() == RefreshEntry(old(Value()), i, pair, noMerge)
      ensures forall j :: 0 <= j < |validators| && j != i ==> validators[j] == old(validators)[j]
    {
      var e := ReadEntry(list, at, validators, i);
      if Matches(e, pair) {
        var e1, transientLamports := UpdateTransient(at, e, noMerge, i);
        var e2, activeLamports := UpdateValidator(at, e1, transientLamports, noMerge, i);
        Write(at, e2.(lastUpdate := epoch, active := activeLamports, transient := transientLamports), i);
      }
    }

    method UpdateValidatorListBalance(start: nat, pairs: seq<AccountPair>, noMerge: bool) returns (r: Result<()>)
      requires Readable()
      modifies this`reserve, this`accounts, this`validators, list.data
      ensures Valid() && Refines(UpdateList(old(Value()), start, pairs, noMerge), r, Value())
    {
      assert list.Len() == |validators|;
      :- Check(start + |pairs| <= list.Len(), AccountDataTooSmall);
      var at := PREFIX + start * RECORD;
      ghost var states := [Value()];
      for k := 0 to |pairs|
        invariant Valid() && start + |pairs| <= |old(validators)| == |validators|
        invariant at == PREFIX + (start + k) * RECORD
        invariant Visits(states, start, pairs[..k], noMerge) && states[0] == old(Value()) && states[k] == Value()
        invariant forall j :: start + k <= j < |validators| ==> validators[j] == old(validators)[j]
      {
        UpdateRecord(at, pairs[k], noMerge, start + k);
        VisitsOn(states, start, pairs[..k], noMerge, pairs[k], Value());
        assert pairs[..k + 1] == pairs[..k] + [pairs[k]];
        states := states + [Value()];
        at := at + RECORD;
      }
      assert pairs[..|pairs|] == pairs;
      VisitsChunk(states, start, pairs, noMerge);
      return Ok(());
    }

    // -------------------------------------------------------------------------------------
    // Updating the balance
    // -------------------------------------------------------------------------------------

    /** Add up the reserve and all records, provided that every record is fresh. */
    method SumRecords() returns (r: Result<nat>)
      requires Readable()
      ensures r == match CheckedSub(reserve, chain.reserveRent)
                   case None => Err(CalculationFailure)
                   case Some(base) => TotalStake(validators, epoch, base)
    {
      assert list.Len() == |validators|;
      :- Check(chain.reserveRent <= reserve, CalculationFailure);
      var total: nat, at := reserve - chain.reserveRent, PREFIX;
      for i := 0 to list.Len()
        invariant at == PREFIX + i * RECORD
        invariant TotalStake(validators, epoch, reserve - chain.reserveRent)
                  == TotalStake(validators[i..], epoch, total)
      {
        var e := ReadEntry(list, at, validators, i);
        assert validators[i..][0] == e && validators[i..][1..] == validators[i + 1..];
        :- Check(e.lastUpdate >= epoch, StakeListOutOfDate);
        :- Check(e.active + e.transient <= U64_MAX, CalculationFailure);
        :- Check(total + (e.active + e.transient) <= U64_MAX, CalculationFailure);
        total := total + (e.active + e.transient);
        at := at + RECORD;
      }
      return Ok(total);
    }

    /** The part of the balance update that only the first one of an epoch does. */
    method StartEpoch(previousLamports: nat, previousSupply: nat)
      requires previousLamports == pool.totalLamports && previousSupply == pool.tokenSupply
      modifies this`pool
      ensures pool == AdvanceFees(old(pool), epoch)
    {
      if pool.lastUpdate < epoch {
        if pool.nextEpochFee.One? {
          pool := pool.(epochFee := pool.nextEpochFee.value);
        }
        pool := pool.(nextEpochFee := pool.nextEpochFee.Advance());
        if pool.nextStakeWithdrawalFee.One? {
          pool := pool.(stakeWithdrawalFee := pool.nextStakeWithdrawalFee.value);
        }
        pool := pool.(nextStakeWithdrawalFee := pool.nextStakeWithdrawalFee.Advance());
        if pool.nextSolWithdrawalFee.One? {
          pool := pool.(solWithdrawalFee := pool.nextSolWithdrawalFee.value);
        }
        pool := pool.(nextSolWithdrawalFee := pool.nextSolWithdrawalFee.Advance());
        pool := pool.(lastUpdate := epoch, lastEpochTotal := previousLamports, lastEpochSupply := previousSupply);
      }
    }

    method UpdateStakePoolBalance(feeAccountValid: bool) returns (r: Result<()>)
      requires Readable()
      modifies this`pool, this`mintSupply
      ensures Refines(UpdateBalance(old(Value()), feeAccountValid), r, Value())
    {
      var previousLamports, previousSupply := pool.totalLamports, pool.tokenSupply;
      var total :- SumRecords();
      var reward := SatSub(total, previousLamports);
      var fee := 0;
      if feeAccountValid {
        fee :- Computed(EpochFeeTokens(pool.totalLamports, pool.tokenSupply, pool.epochFee, reward));
      }
      var _ :- MintTo(fee);
      StartEpoch(previousLamports, previousSupply);
      pool := pool.(totalLamports := total);
      pool := pool.(tokenSupply := mintSupply);
      return Ok(());
    }

    // -------------------------------------------------------------------------------------
    // Deposits
    // -------------------------------------------------------------------------------------

    /** Mint to the depositor, the manager and the referrer. */
    method MintDeposit(m: Minted) returns (r: Result<()>)
      requires m.user + m.manager + m.referrer == m.total
      modifies this`mintSupply
      ensures r == if old(mintSupply) + m.total <= U64_MAX then Ok(()) else Err(CalculationFailure)
      ensures r.Ok? ==> mintSupply == old(mintSupply) + m.total
    {
      var _ :- MintTo(m.user);
      if m.manager > 0 {
        var _ :- MintTo(m.manager);
      }
      if m.referrer > 0 {
        var _ :- MintTo(m.referrer);
      }
      return Ok(());
    }

    /** Add a deposit to the recorded totals. */
    method AddToTotals(tokens: nat, lamports: nat) returns (r: Result<()>)
      modifies this`pool
      ensures r == if old(pool).tokenSupply + tokens <= U64_MAX && old(pool).totalLamports + lamports <= U64_MAX
                   then Ok(()) else Err(CalculationFailure)
      ensures r.Ok? ==> pool == old(pool).(tokenSupply := old(pool).tokenSupply + tokens,
                                           totalLamports := old(pool).totalLamports + lamports)
    {
      var supply, total := pool.tokenSupply + tokens, pool.totalLamports + lamports;
      :- Check(supply <= U64_MAX, CalculationFailure);
      pool := pool.(tokenSupply := supply);
      :- Check(total <= U64_MAX, CalculationFailure);
      pool := pool.(totalLamports := total);
      return Ok(());
    }

    method ProcessDepositSol(lamports: nat, minimumOut: Option<nat>) returns (r: Result<()>)
      modifies this`pool, this`reserve, this`mintSupply
      ensures Refines(DepositSol(old(Value()), lamports, minimumOut), r, Value())
    {
      var current := pool.lastUpdate >= epoch;
      :- Check(current, StakeListAndPoolOutOfDate);
      var minted :- QuoteSolDeposit(pool, lamports, minimumOut);
      reserve := reserve + lamports;
      var _ :- MintDeposit(minted);
      var _ :- AddToTotals(minted.total, lamports);
      return Ok(());
    }

    /** Mint for a stake that is already merged, and move what it did not delegate to the reserve. */
    method SettleDeposit(at: nat, e: ValidatorStakeInfo, rest: nat, lamports: nat, m: Minted, ghost i: nat)
      returns (r: Result<()>)
      requires Valid() && i < |validators| && at == PREFIX + i * RECORD && e == validators[i]
      requires e.ValidatorAddress() in accounts
      requires rest <= accounts[e.ValidatorAddress()].lamports && m.user + m.manager + m.referrer == m.total
      modifies this`pool, this`reserve, this`accounts, this`mintSupply, this`validators, list.data
      ensures Valid()
      ensures var va := e.ValidatorAddress();
              var left := old(accounts)[va].(lamports := old(accounts)[va].lamports - rest);
              var s := SetEntry(old(Value()), i, e.(active := left.lamports), old(accounts)[va := left]);
              Refines(Credit(s.(reserve := old(reserve) + rest), lamports, m.total), r, Value())
    {
      var va := e.ValidatorAddress();
      var _ :- MintDeposit(m);
      reserve := reserve + rest;
      accounts := accounts[va := accounts[va].(lamports := accounts[va].lamports - rest)];
      var _ :- AddToTotals(m.total, lamports);
      Write(at, e.(active := accounts[va].lamports), i);
      return Ok(());
    }

    /** The deposited stake is merged first; what it did not delegate moves on to the reserve. */
    method MergeDeposit(at: nat, e: ValidatorStakeInfo, lamports: nat, delegated: nat, minimumOut: Option<nat>,
                        ghost i: nat)
      returns (r: Result<()>)
      requires Valid() && i < |validators| && at == PREFIX + i * RECORD && e == validators[i]
      requires e.ValidatorAddress() in accounts && accounts[e.ValidatorAddress()].state.Delegated?
      modifies this`pool, this`reserve, this`accounts, this`mintSupply, this`validators, list.data
      ensures Valid() && Refines(DepositInto(old(Value()), i, lamports, delegated, minimumOut), r, Value())
    {
      var va := e.ValidatorAddress();
      var before := accounts[va];
      var merged := before.(lamports := before.lamports + lamports,
                            state := before.state.(stake := before.state.stake + delegated));
      accounts := accounts[va := merged];
      :- Check(merged.state.stake - before.state.stake <= merged.lamports - before.lamports, CalculationFailure);
      var minted :- QuoteStakeDeposit(pool, lamports, delegated, minimumOut);
      ghost var left := merged.(lamports := merged.lamports - (lamports - delegated));
      assert accounts[va := left] == old(accounts)[va := left];
      r := SettleDeposit(at, e, lamports - delegated, lamports, minted, i);
    }

    method ProcessDepositStake(vote: Key, lamports: nat, delegated: nat, minimumOut: Option<nat>)
      returns (r: Result<()>)
      requires Readable()
      modifies this`pool, this`reserve, this`accounts, this`mintSupply, this`validators, list.data
      ensures Valid() && Refines(DepositStake(old(Value()), vote, lamports, delegated, minimumOut), r, Value())
    {
      var current := pool.lastUpdate >= epoch;
      :- Check(current, StakeListAndPoolOutOfDate);
      ghost var i;
      var found: Result<Located>;
      found, i := Lookup(vote);
      var record :- found;
      var va := record.entry.ValidatorAddress();
      :- Check(va in accounts && accounts[va].state.Delegated?, WrongStakeStake);
      :- Check(record.entry.status == Active, ValidatorNotFound);
      r := MergeDeposit(record.at, record.entry, lamports, delegated, minimumOut, i);
    }

    // -------------------------------------------------------------------------------------
    // Withdrawals
    // -------------------------------------------------------------------------------------

    /** Take a withdrawal off the recorded totals. */
    method SubtractFromTotals(tokens: nat, lamports: nat) returns (r: Result<()>)
      modifies this`pool
      ensures r == if tokens <= old(pool).tokenSupply && lamports <= old(pool).totalLamports
                   then Ok(()) else Err(CalculationFailure)
      ensures r.Ok? ==> pool == old(pool).(tokenSupply := old(pool).tokenSupply - tokens,
                                           totalLamports := old(pool).totalLamports - lamports)
    {
      var supply, total := pool.tokenSupply, pool.totalLamports;
      :- Check(tokens <= supply, CalculationFailure);
      pool := pool.(tokenSupply := pool.tokenSupply - tokens);
      :- Check(lamports <= total, CalculationFailure);
      pool := pool.(totalLamports := pool.totalLamports - lamports);
      return Ok(());
    }

    method PayFromReserve(q: Redemption) returns (r: Result<()>)
      modifies this`pool, this`reserve, this`mintSupply
      ensures Refines(Debited(TakeFromReserve(old(Value()), q), q.burnt), r, Value())
    {
      var left := SatSub(reserve, q.lamports);
      :- Check(left >= chain.reserveRent, SolWithdrawalTooLarge);
      :- Check(q.lamports <= reserve, InsufficientFunds);
      var _ :- Burn(q.burnt);
      reserve := reserve - q.lamports;
      var _ :- SubtractFromTotals(q.burnt, q.lamports);
      return Ok(());
    }

    method ProcessWithdrawSol(tokens: nat, minimumOut: Option<nat>, feeWaived: bool) returns (r: Result<()>)
      modifies this`pool, this`reserve, this`mintSupply
      ensures Refines(WithdrawSol(old(Value()), tokens, minimumOut, feeWaived), r, Value())
    {
      var current := pool.lastUpdate >= epoch;
      :- Check(current, StakeListAndPoolOutOfDate);
      var q :- QuoteWithdrawal(pool, pool.solWithdrawalFee, tokens, minimumOut, feeWaived);
      r := PayFromReserve(q);
    }

    /** Split part of a stake account off; the rest must keep the required lamports. */
    method SplitStake(at: nat, e: ValidatorStakeInfo, q: Redemption, required: nat, from: WithdrawSource, ghost i: nat)
      returns (r: Result<()>)
      requires Valid() && i < |validators| && at == PREFIX + i * RECORD && e == validators[i]
      requires var a := if from == FromActive then e.ValidatorAddress() else e.TransientAddress();
               a in accounts && accounts[a].state.Delegated?
      modifies this`pool, this`accounts, this`mintSupply, this`validators, list.data
      ensures Valid() && Refines(Debited(TakeFromAccount(old(Value()), i, q, required, from), q.burnt), r, Value())
    {
      var a := if from == FromActive then e.ValidatorAddress() else e.TransientAddress();
      :- Check(SatSub(accounts[a].lamports, q.lamports) >= required, StakeLamportsNotEqualToMinimum);
      :- Check(q.lamports <= accounts[a].lamports, InsufficientFunds);
      var _ :- Burn(q.burnt);
      accounts := Put(accounts, a, Reduced(accounts[a], q.lamports));
      var _ :- SubtractFromTotals(q.burnt, q.lamports);
      var recorded := if from == FromActive then e.active else e.transient;
      :- Check(q.lamports <= recorded, CalculationFailure);
      if from == FromActive {
        Write(at, e.(active := recorded - q.lamports), i);
      } else {
        Write(at, e.(transient := recorded - q.lamports), i);
      }
      return Ok(());
    }

    /** Hand over a whole validator account and retire its entry. */
    method SplitWholeStake(at: nat, e: ValidatorStakeInfo, q: Redemption, perToken: nat, ghost i: nat)
      returns (r: Result<()>)
      requires Valid() && i < |validators| && at == PREFIX + i * RECORD && e == validators[i]
      requires e.ValidatorAddress() in accounts
      modifies this`pool, this`accounts, this`mintSupply, this`validators, list.data
      ensures Valid() && Refines(Debited(TakeWholeAccount(old(Value()), i, q, perToken), q.burnt), r, Value())
    {
      var va := e.ValidatorAddress();
      var lamports := accounts[va].lamports;
      :- Check(lamports <= q.lamports <= SatAdd(lamports, perToken), StakeLamportsNotEqualToMinimum);
      var _ :- Burn(q.burnt);
      accounts := accounts - {va};
      var _ :- SubtractFromTotals(q.burnt, lamports);
      :- Check(lamports <= e.active, CalculationFailure);
      :- Check(e.active - lamports == 0, StakeListAndPoolOutOfDate);
      Write(at, e.(active := 0, status := ReadyForRemoval), i);
      return Ok(());
    }

    method ProcessWithdrawStake(source: Source, tokens: nat, minimumOut: Option<nat>, feeWaived: bool)
      returns (r: Result<()>)
      requires Readable() && NamesAKey(source)
      modifies this`pool, this`reserve, this`accounts, this`mintSupply, this`validators, list.data
      ensures Valid() && Refines(WithdrawStake(old(Value()), source, tokens, minimumOut, feeWaived), r, Value())
    {
      var current := pool.lastUpdate >= epoch;
      :- Check(current, StakeListAndPoolOutOfDate);
      var q :- QuoteWithdrawal(pool, pool.stakeWithdrawalFee, tokens, minimumOut, feeWaived);
      r := PayStake(source, q);
    }

    method PayStake(source: Source, q: Redemption) returns (r: Result<()>)
      requires Readable() && NamesAKey(source)
      modifies this`pool, this`reserve, this`accounts, this`mintSupply, this`validators, list.data
      ensures Valid() && Refines(Debited(TakeStake(old(Value()), source, q), q.burnt), r, Value())
    {
      var aStake := source.Account? ==> source.address in accounts && !accounts[source.address].state.NotAStake?;
      :- Check(aStake, WrongStakeStake);
      var rent := if source.Account? then accounts[source.address].rent else chain.reserveRent;
      var required := SatAdd(rent, chain.MinimumDelegation());
      var perToken :- Computed(LamportsPerToken(pool.totalLamports, pool.tokenSupply));
      var limit := SatAdd(required, perToken);
      var hasActive := AnyActiveAbove(list, limit, validators);
      var hasTransient := AnyTransientAbove(list, limit, validators);
      :- Check(source.Reserve? ==> !hasActive && !hasTransient, StakeLamportsNotEqualToMinimum);
      if source.Reserve? {
        r := PayFromReserve(q);
        return;
      }
      var a := source.address;
      :- Check(accounts[a].state.Delegated?, WrongStakeStake);
      :- Check(!a.EphemeralStake?, InvalidStakeAccountAddress);
      ghost var i;
      var found: Result<Located>;
      found, i := Lookup(a.vote);
      var record :- found;
      r := PayFromEntry(record.at, record.entry, a, q, required, perToken,
                        ChooseSource(record.entry, hasActive, hasTransient), i);
    }

    method PayFromEntry(at: nat, e: ValidatorStakeInfo, a: Address, q: Redemption, required: nat, perToken: nat,
                        choice: (WithdrawSource, Address), ghost i: nat) returns (r: Result<()>)
      requires Valid() && i < |validators| && at == PREFIX + i * RECORD && e == validators[i]
      requires a in accounts && accounts[a].state.Delegated?
      requires choice.1 == e.AddressFor(choice.0 == FromTransient)
      modifies this`pool, this`accounts, this`mintSupply, this`validators, list.data
      ensures Valid()
      ensures Refines(Debited(TakeFromEntry(old(Value()), i, a, q, required, perToken, choice), q.burnt), r, Value())
    {
      var (from, expected) := choice;
      :- Check(a == expected, InvalidStakeAccountAddress);
      :- Check(e.status == Active, ValidatorNotFound);
      if from == ValidatorRemoval {
        r := SplitWholeStake(at, e, q, perToken, i);
      } else {
        r := SplitStake(at, e, q, required, from, i);
      }
    }

    // -------------------------------------------------------------------------------------
    // Moving stake
    // -------------------------------------------------------------------------------------

    /** Create a stake account with lamports split off the reserve, and delegate it. */
    method SplitFromReserve(a: Address, lamports: nat)
      requires lamports <= reserve && a !in accounts
      modifies this`reserve, this`accounts
      ensures reserve == old(reserve) - lamports
      ensures var state := Delegated(SatSub(lamports, chain.stakeRent), epoch, EPOCH_MAX);
              accounts == old(accounts)[a := StakeAccount(lamports, true, chain.stakeRent, state)]
    {
      reserve := reserve - lamports;
      accounts := accounts[a := StakeAccount(lamports, true, chain.stakeRent, Initialized)];
      accounts := accounts[a := accounts[a].(state := Delegated(SatSub(lamports, chain.stakeRent), epoch, EPOCH_MAX))];
    }

    /** Split a whole account into a new one. */
    method SplitAll(source: Address, target: Address)
      requires source in accounts && target !in accounts
      modifies this`accounts
      ensures accounts == (old(accounts) - {source})[target := old(accounts)[source]]
    {
      accounts := (accounts - {source})[target := accounts[source]];
    }

    /** Merge a stake into another one in the same state; `stake` of its lamports are delegated on. */
    method MergePending(source: Address, target: Address, stake: nat)
      requires source in accounts && target in accounts && source != target && accounts[target].state.Delegated?
      modifies this`accounts
      ensures var to := old(accounts)[target];
              accounts == (old(accounts) - {source})[target :=
                to.(lamports := to.lamports + old(accounts)[source].lamports,
                    state := to.state.(stake := to.state.stake + stake))]
    {
      var to := accounts[target];
      accounts := (accounts - {source})[target :=
        to.(lamports := to.lamports + accounts[source].lamports, state := to.state.(stake := to.state.stake + stake))];
    }

    /** Fund the transient account of entry e, directly or through an ephemeral account. */
    method FundFromReserve(e: ValidatorStakeInfo, seed: nat, total: nat, ephemeral: Option<nat>)
      requires total <= reserve && chain.stakeRent <= total
      requires ephemeral.Some? ==> EphemeralStake(ephemeral.value) !in accounts
      requires if e.transient > 0 then ephemeral.Some? && seed == e.transientSeed
                 && e.TransientAddress() in accounts && accounts[e.TransientAddress()].state.Delegated?
               else TransientStake(e.vote, seed) !in accounts
      modifies this`reserve, this`accounts
      ensures reserve == old(reserve) - total
      ensures var account := FundTransient(old(Value()), e, seed, total - chain.stakeRent);
              accounts == old(accounts)[TransientStake(e.vote, seed) := account]
    {
      var ta := TransientStake(e.vote, seed);
      ghost var account := FundTransient(Value(), e, seed, total - chain.stakeRent);
      if ephemeral.Some? {
        var source := EphemeralStake(ephemeral.value);
        SplitFromReserve(source, total);
        if e.transient > 0 {
          MergePending(source, ta, total);
        } else {
          SplitAll(source, ta);
        }
      } else {
        SplitFromReserve(ta, total);
      }
      assert accounts == old(accounts)[ta := account];
    }

    method FundRecorded(at: nat, e: ValidatorStakeInfo, seed: nat, total: nat, ephemeral: Option<nat>, ghost i: nat)
      returns (r: Result<()>)
      requires Valid() && i < |validators| && at == PREFIX + i * RECORD && e == validators[i]
      requires total <= reserve && chain.stakeRent <= total
      requires ephemeral.Some? ==> EphemeralStake(ephemeral.value) !in accounts
      requires if e.transient > 0 then ephemeral.Some? && seed == e.transientSeed
                 && e.TransientAddress() in accounts && accounts[e.TransientAddress()].state.Delegated?
               else TransientStake(e.vote, seed) !in accounts
      modifies this`reserve, this`accounts, this`validators, list.data
      ensures Valid() && Refines(IncreaseBy(old(Value()), i, seed, total), r, Value())
    {
      FundFromReserve(e, seed, total, ephemeral);
      :- Check(e.transient + total <= U64_MAX, CalculationFailure);
      Write(at, e.(transient := e.transient + total, transientSeed := seed), i);
      return Ok(());
    }

    method ProcessIncreaseValidatorStake(vote: Key, lamports: nat, seed: nat, ephemeral: Option<nat>)
      returns (r: Result<()>)
      requires Readable()
      modifies this`reserve, this`accounts, this`validators, list.data
      ensures Valid() && Refines(IncreaseValidatorStake(old(Value()), vote, lamports, seed, ephemeral), r, Value())
    {
      var current := pool.lastUpdate >= epoch;
      :- Check(current, StakeListAndPoolOutOfDate);
      ghost var i;
      var found: Result<Located>;
      found, i := Lookup(vote);
      var record :- found;
      var e := record.entry;
      var total :- IncreaseAmount(e, accounts, reserve, epoch, chain, lamports, seed, ephemeral);
      r := FundRecorded(record.at, e, seed, total, ephemeral, i);
    }

    /** Split lamports off a validator account into a new account with its rent paid, and deactivate it. */
    method SplitAndDeactivate(va: Address, target: Address, lamports: nat, rent: nat)
      requires va in accounts && accounts[va].state.Delegated? && lamports <= accounts[va].lamports
      requires rent <= reserve && target !in accounts
      modifies this`reserve, this`accounts
      ensures reserve == old(reserve) - rent
      ensures var from := old(accounts)[va];
              var deactivation := if from.state.deactivation == EPOCH_MAX then epoch else from.state.deactivation;
              accounts == old(accounts)[va := Reduced(from, lamports)][target :=
                StakeAccount(lamports + rent, from.usable, chain.stakeRent,
                             from.state.(stake := SatSub(lamports + rent, chain.stakeRent),
                                         deactivation := deactivation))]
    {
      var from := accounts[va];
      reserve := reserve - rent;
      accounts := accounts[va := Reduced(from, lamports)];
      accounts := accounts[target := StakeAccount(lamports + rent, from.usable, chain.stakeRent,
                                                  from.state.(stake := SatSub(lamports + rent, chain.stakeRent)))];
      if from.state.deactivation == EPOCH_MAX {
        accounts := accounts[target := accounts[target].(state := accounts[target].state.(deactivation := epoch))];
      }
    }

    /** Move lamports of entry e into its transient account, directly or through an ephemeral account. */
    method SplitToTransient(e: ValidatorStakeInfo, seed: nat, lamports: nat, rent: nat, ephemeral: Option<nat>)
      requires var va := e.ValidatorAddress();
               va in accounts && accounts[va].state.Delegated? && lamports <= accounts[va].lamports
      requires rent <= reserve
      requires ephemeral.Some? ==> EphemeralStake(ephemeral.value) !in accounts
      requires if e.transient > 0 then ephemeral.Some?
                 && TransientStake(e.vote, seed) in accounts && accounts[TransientStake(e.vote, seed)].state.Delegated?
               else TransientStake(e.vote, seed) !in accounts
      modifies this`reserve, this`accounts
      ensures reserve == old(reserve) - rent
      ensures var va := e.ValidatorAddress();
              accounts == old(accounts)[va := Reduced(old(accounts)[va], lamports)][TransientStake(e.vote, seed) :=
                DecreasedInto(old(Value()), e, seed, lamports + rent, old(accounts)[va])]
    {
      var va, ta := e.ValidatorAddress(), TransientStake(e.vote, seed);
      ghost var account := DecreasedInto(Value(), e, seed, lamports + rent, accounts[va]);
      if ephemeral.Some? {
        var source := EphemeralStake(ephemeral.value);
        SplitAndDeactivate(va, source, lamports, rent);
        if e.transient > 0 {
          MergePending(source, ta, SatSub(lamports + rent, chain.stakeRent));
        } else {
          SplitAll(source, ta);
        }
      } else {
        SplitAndDeactivate(va, ta, lamports, rent);
      }
      assert accounts == old(accounts)[va := Reduced(old(accounts)[va], lamports)][ta := account];
    }

    method SplitRecorded(at: nat, e: ValidatorStakeInfo, seed: nat, lamports: nat, rent: nat, ephemeral: Option<nat>,
                         ghost i: nat)
      returns (r: Result<()>)
      requires Valid() && i < |validators| && at == PREFIX + i * RECORD && e == validators[i] && rent <= reserve
      requires var va := e.ValidatorAddress();
               va in accounts && accounts[va].state.Delegated? && lamports <= accounts[va].lamports
      requires ephemeral.Some? ==> EphemeralStake(ephemeral.value) !in accounts
      requires if e.transient > 0 then ephemeral.Some?
                 && TransientStake(e.vote, seed) in accounts && accounts[TransientStake(e.vote, seed)].state.Delegated?
               else TransientStake(e.vote, seed) !in accounts
      modifies this`reserve, this`accounts, this`validators, list.data
      ensures Valid() && Refines(DecreaseBy(old(Value()), i, seed, lamports, rent), r, Value())
    {
      SplitToTransient(e, seed, lamports, rent, ephemeral);
      :- Check(lamports <= e.active, CalculationFailure);
      var transient := Balance(accounts, TransientStake(e.vote, seed));
      Write(at, e.(active := e.active - lamports, transient := transient, transientSeed := seed), i);
      return Ok(());
    }

    method ProcessDecreaseValidatorStake(vote: Key, lamports: nat, seed: nat, ephemeral: Option<nat>, fundRent: bool)
      returns (r: Result<()>)
      requires Readable()
      modifies this`reserve, this`accounts, this`validators, list.data
      ensures Valid()
              && Refines(DecreaseValidatorStake(old(Value()), vote, lamports, seed, ephemeral, fundRent), r, Value())
    {
      var current := pool.lastUpdate >= epoch;
      :- Check(current, StakeListAndPoolOutOfDate);
      ghost var i;
      var found: Result<Located>;
      found, i := Lookup(vote);
      var record :- found;
      var e := record.entry;
      var rent :- DecreaseRent(e, accounts, reserve, epoch, chain, lamports, seed, ephemeral, fundRent);
      r := SplitRecorded(record.at, e, seed, lamports, rent, ephemeral, i);
    }

    // -------------------------------------------------------------------------------------
    // The validator list
    // -------------------------------------------------------------------------------------

    method ProcessAddValidator(vote: Key, seed: u32) returns (r: Result<()>)
      requires Readable()
      modifies this`reserve, this`accounts, this`validators, list.data
      ensures Valid() && Refines(AddValidator(old(Value()), vote, seed), r, Value())
    {
      var current := pool.lastUpdate >= epoch;
      :- Check(current, StakeListAndPoolOutOfDate);
      assert list.Len() == |validators|;
      :- Check(maxValidators != list.Len(), AccountDataTooSmall);
      :- Check(list.Len() < MAX_VALIDATORS_IN_POOL, TooManyValidatorsInPool);
      var at := FindVote(list, vote, validators);
      :- Check(at.None?, ValidatorAlreadyAdded);
      var required := SatAdd(chain.MinimumDelegation(), chain.stakeRent);
      :- Check(SatSub(reserve, required) >= chain.reserveRent && required <= reserve, InsufficientFunds);
      var va := ValidatorStake(vote, seed);
      :- Check(va !in accounts, AccountInUse);
      SplitFromReserve(va, required);
      var e := ValidatorStakeInfo(required, 0, epoch, 0, 0, seed, Active, vote);
      // The list has room for every validator the pool may have, so the push succeeds.
      var pushed := AddEntry(list, e, validators);
      assert pushed.Pass?;
      validators := validators + [e];
      return Ok(());
    }

    method ProcessRemoveValidator(vote: Key) returns (r: Result<()>)
      requires Readable()
      modifies this`accounts, this`validators, list.data
      ensures Valid() && Refines(RemoveValidator(old(Value()), vote), r, Value())
    {
      var current := pool.lastUpdate >= epoch;
      :- Check(current, StakeListAndPoolOutOfDate);
      ghost var i;
      var found: Result<Located>;
      found, i := Lookup(vote);
      var record :- found;
      var e := record.entry;
      var va, ta := e.ValidatorAddress(), e.TransientAddress();
      :- Check(va in accounts && accounts[va].state.Delegated?, WrongStakeStake);
      :- Check(e.status == Active, ValidatorNotFound);
      var status := DeactivatingValidator;
      if e.transient > 0 {
        if ta in accounts && accounts[ta].usable && accounts[ta].state.Delegated?
           && accounts[ta].state.deactivation == EPOCH_MAX {
          Deactivate(ta);
        }
        status := DeactivatingAll;
      }
      if accounts[va].state.deactivation == EPOCH_MAX {
        Deactivate(va);
      }
      Write(record.at, e.(status := status), i);
      return Ok(());
    }

    /**
     * Compact the list in place. Exactly the entries marked ready go, none of the pool's lamports with
     * them, and the bytes behind the old end stay as they were.
     */
    method ProcessCleanup()
      requires Readable()
      modifies this`validators, list.data
      ensures Readable() && Value() == Cleanup(old(Value()))
      ensures Invariant(old(Value())) ==>
                && Invariant(Value()) && Holdings(Value()) == Holdings(old(Value()))
                && forall e :: e in validators <==> e in old(validators) && e.status != ReadyForRemoval
      ensures SameFrom(old(list.data[..]), list.data[..], PREFIX + |old(validators)| * RECORD)
    {
      assert list.Len() == |validators|;
      CleanupList(list, Value());
      if Invariant(Value()) {
        CleanupKeeps(Value());
        CleanupIsExact(Value());
      }
      validators := Filter(validators, Kept);
    }

    // -------------------------------------------------------------------------------------
    // Fees
    // -------------------------------------------------------------------------------------

    /** A settable fee is set, a deferred one to come into force after two more epochs; any other changes nothing. */
    method ProcessSetFee(fee: FeeType) returns (r: Result<()>)
      modifies this`pool
      ensures r.Ok? <==> Settable(old(Value()), fee)
      ensures if r.Ok? then FeeSet(old(pool), fee, pool) else pool == old(pool)
      ensures ValidFees(old(pool)) ==> ValidFees(pool)
      ensures Refines(SetFee(old(Value()), fee), r, Value())
    {
      var tooEarly := fee.OnlyNextEpoch() && pool.lastUpdate < epoch;
      :- Check(!tooEarly, StakeListAndPoolOutOfDate);
      :- Check(!fee.TooHigh(), FeeTooHigh);
      match fee {
        case SolReferral(percent) => pool := pool.(solReferralFee := percent);
        case StakeReferral(percent) => pool := pool.(stakeReferralFee := percent);
        case EpochReward(f) => pool := pool.(nextEpochFee := Two(f));
        case StakeWithdrawal(f) =>
          CheckIsExactly(pool.stakeWithdrawalFee, f);
          :- CheckWithdrawal(pool.stakeWithdrawalFee, f);
          pool := pool.(nextStakeWithdrawalFee := Two(f));
        case SolWithdrawal(f) =>
          CheckIsExactly(pool.solWithdrawalFee, f);
          :- CheckWithdrawal(pool.solWithdrawalFee, f);
          pool := pool.(nextSolWithdrawalFee := Two(f));
        case SolDeposit(f) => pool := pool.(solDepositFee := f);
        case StakeDeposit(f) => pool := pool.(stakeDepositFee := f);
      }
      return Ok(());
    }

    // -------------------------------------------------------------------------------------
    // Instructions
    // -------------------------------------------------------------------------------------

    method Process(op: Instruction) returns (r: Result<()>)
      requires Readable()
      modifies this, list.data
      ensures Valid() && epoch == old(epoch) && Refines(Apply(old(Value()), op), r, Value())
    {
      match op
      case InDepositSol(lamports, minimumOut) => r := ProcessDepositSol(lamports, minimumOut);
      case InDepositStake(vote, lamports, delegated, minimumOut) =>
        r := ProcessDepositStake(vote, lamports, delegated, minimumOut);
      case InWithdrawSol(tokens, minimumOut, feeWaived) => r := ProcessWithdrawSol(tokens, minimumOut, feeWaived);
      case InWithdrawStake(source, tokens, minimumOut, feeWaived) =>
        r := ProcessWithdrawStake(source, tokens, minimumOut, feeWaived);
      case InIncrease(vote, lamports, seed, ephemeral) =>
        r := ProcessIncreaseValidatorStake(vote, lamports, seed, ephemeral);
      case InDecrease(vote, lamports, seed, ephemeral, fundRent) =>
        r := ProcessDecreaseValidatorStake(vote, lamports, seed, ephemeral, fundRent);
      case InAddValidator(vote, seed) => r := ProcessAddValidator(vote, seed);
      case InRemoveValidator(vote) => r := ProcessRemoveValidator(vote);
      case InUpdateList(start, pairs, noMerge) => r := UpdateValidatorListBalance(start, pairs, noMerge);
      case InUpdateBalance(feeAccountValid) => r := UpdateStakePoolBalance(feeAccountValid);
      case InCleanup =>
        ProcessCleanup();
        r := Ok(());
      case InSetFee(fee) => r := ProcessSetFee(fee);
    }

    /** Put the fields and the bytes of the list back to what they were. */
    method Restore(bytes: seq<byte>, pool': Pool, reserve': nat, accounts': Accounts, mintSupply': nat,
                   ghost validators': seq<ValidatorStakeInfo>)
      requires |bytes| == list.data.Length && WellFormed(bytes, RECORD)
      requires Records(bytes, RECORD) == Map(validators', Encode)
      requires |validators'| <= maxValidators && PREFIX + maxValidators * RECORD <= list.data.Length
      modifies this, list.data
      ensures Valid() && epoch == old(epoch)
      ensures Value() == old(Value()).(pool := pool', validators := validators', reserve := reserve',
                                       accounts := accounts', mintSupply := mintSupply')
    {
      pool, reserve, accounts, mintSupply := pool', reserve', accounts', mintSupply';
      validators := validators';
      list.Store(0, bytes);
      assert list.data[..] == bytes;
    }

    /**
     * The runtime discards everything an instruction did when it fails, so each one is a step of a run:
     * it keeps the invariant, and the bytes of the list hold exactly the entries of the new state.
     */
    method Execute(op: Instruction) returns (r: Result<()>)
      requires Readable()
      modifies this, list.data
      ensures r.Ok? <==> Apply(old(Value()), op).Ok?
      ensures Value() == if r.Ok? then Apply(old(Value()), op).value else old(Value())
      ensures Step(old(Value()), Value()) && Valid()
      ensures Invariant(old(Value())) && Holdings(old(Value())) <= U64_MAX && Holdings(Value()) <= U64_MAX ==>
                Invariant(Value()) && Readable()
    {
      ghost var before := Value();
      var bytes, savedPool, savedReserve := list.data[..], pool, reserve;
      var savedAccounts, savedSupply := accounts, mintSupply;
      r := Process(op);
      if r.Err? {
        Restore(bytes, savedPool, savedReserve, savedAccounts, savedSupply, before.validators);
      } else {
        ExecutedStep(before, op, Value());
      }
    }
  }

  /** A successful instruction is a step, and keeps the invariant and the widths of the records. */
  lemma ExecutedStep(s: State, op: Instruction, s': State)
    requires Apply(s, op) == Ok(s') && AllInRange(s.validators)
    ensures Step(s, s')
    ensures Invariant(s) && Holdings(s) <= U64_MAX && Holdings(s') <= U64_MAX ==>
              Invariant(s') && AllInRange(s'.validators)
  {
    if Invariant(s) && Holdings(s) <= U64_MAX && Holdings(s') <= U64_MAX {
      InstructionKeeps(s, op, s');
      InstructionKeepsRange(s, op, s');
    }
  }
}
