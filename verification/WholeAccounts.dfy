/** When a whole validator account can be withdrawn, and what that leaves behind. */
module WholeAccounts {
  import opened Base
  import opened Pricing
  import opened PriceTheorems
  import opened Fees
  import opened Sums
  import opened World
  import opened ListUpdate
  import opened Accounting
  import opened Handlers
  import opened Quotes
  import opened Sources

  ghost function AccountOf(s: State, i: nat): Address
    requires i < |s.validators|
  {
    s.validators[i].ValidatorAddress()
  }

  /** No active validator has stake to spare, so a withdrawal from entry i has to take the whole account. */
  ghost predicate WholeOnly(s: State, i: nat) {
    && i < |s.validators| && s.validators[i].status == Active && AccountOf(s, i) in s.accounts && Countable(s.pool)
    && s.validators[i].transient == 0
    && var limit := Limit(s, s.accounts[AccountOf(s, i)].rent);
       !ActiveAbove(s, limit) && !TransientAbove(s, limit)
  }

  /** The fewest tokens that redeem for a balance. */
  function Needed(total: nat, supply: nat, balance: nat): nat
    requires total > 0
  {
    (balance * supply + total - 1) / total
  }

  lemma NeededIsLeast(total: nat, supply: nat, balance: nat, tokens: nat)
    requires total > 0 && supply > 0
    ensures balance <= tokens * total / supply <==> Needed(total, supply, balance) <= tokens
  {
    var need := balance * supply;
    if balance <= tokens * total / supply {
      FloorBounds(tokens * total, supply);
      MulMono(balance, tokens * total / supply, supply);
      assert (tokens + 1) * total == tokens * total + total;
      FloorAtMost(need + total - 1, total, tokens);
    }
    if Needed(total, supply, balance) <= tokens {
      FloorBounds(need + total - 1, total);
      MulMono(Needed(total, supply, balance), tokens, total);
      FloorAtLeast(tokens * total, supply, balance);
    }
  }

  /** Tokens within the supply suffice only for a balance within the total. */
  lemma NeededWithinSupply(total: nat, supply: nat, balance: nat)
    requires total > 0 && supply > 0 && Needed(total, supply, balance) <= supply
    ensures balance <= total
  {
    NeededIsLeast(total, supply, balance, supply);
    FloorUnique(supply * total, supply, total);
  }

  // ---------------------------------------------------------------------------------------
  // The path through the handler
  // ---------------------------------------------------------------------------------------

  ghost function Quoted(s: State, tokens: nat, feeWaived: bool): Result<Redemption> {
    QuoteWithdrawal(s.pool, s.pool.stakeWithdrawalFee, tokens, None, feeWaived)
  }

  /** The quote falls into the accepted window, and can be burnt and paid. */
  ghost predicate Accepted(s: State, i: nat, q: Redemption)
    requires WholeOnly(s, i)
  {
    var balance := s.accounts[AccountOf(s, i)].lamports;
    && balance <= q.lamports <= SatAdd(balance, TokenValue(s.pool))
    && q.burnt <= s.mintSupply && q.burnt <= s.pool.tokenSupply && balance <= s.pool.totalLamports
  }

  /** What a withdrawal of the whole account leaves. */
  ghost predicate Emptied(s: State, i: nat, s': State)
    requires i < |s.validators|
  {
    && s'.validators == s.validators[i := s.validators[i].(active := 0, status := ReadyForRemoval)]
    && s'.accounts == s.accounts - {AccountOf(s, i)} && s'.reserve == s.reserve
    && s'.pool.totalLamports == s.pool.totalLamports - Balance(s.accounts, AccountOf(s, i))
  }

  lemma AcceptedTakesAll(s: State, i: nat, q: Redemption) returns (s': State)
    requires Invariant(s) && s.pool.lastUpdate == s.epoch && WholeOnly(s, i) && Accepted(s, i, q)
    ensures TakesInTurn(s, i, AccountOf(s, i), q, s')
  {
    EntryInOrder(s, i);
    s' := Paid(s, s.accounts[AccountOf(s, i)].lamports, q.burnt).(
      accounts := s.accounts - {AccountOf(s, i)},
      validators := s.validators[i := s.validators[i].(active := 0, status := ReadyForRemoval)]);
  }

  lemma TakesAllIsAccepted(s: State, i: nat, j: nat, q: Redemption, s': State)
    requires Invariant(s) && WholeOnly(s, i) && j < |s.validators| && TakesInTurn(s, j, AccountOf(s, i), q, s')
    ensures Accepted(s, i, q) && Emptied(s, i, s')
  {
  }

  /** A whole account is withdrawn exactly when the quote is accepted, and then its entry is ready for removal. */
  lemma WholeWithdrawal(s: State, i: nat, tokens: u64, feeWaived: bool)
    requires Invariant(s) && s.pool.lastUpdate == s.epoch && WholeOnly(s, i)
    ensures var r := WithdrawStake(s, Account(AccountOf(s, i)), tokens, None, feeWaived);
            && (r.Ok? <==> Quoted(s, tokens, feeWaived).Ok? && Accepted(s, i, Quoted(s, tokens, feeWaived).value))
            && (r.Ok? ==> Emptied(s, i, r.value))
  {
    var a, quote := AccountOf(s, i), Quoted(s, tokens, feeWaived);
    var r := WithdrawStake(s, Account(a), tokens, None, feeWaived);
    if r.Ok? {
      AccountWithdrawalIff(s, a, tokens, None, feeWaived, r.value);
      var j, q :| Withdraws(s, j, a, tokens, None, feeWaived, q, r.value);
      QuoteIff(s.pool, s.pool.stakeWithdrawalFee, tokens, None, feeWaived, q);
      TakesAllIsAccepted(s, i, j, q, r.value);
    }
    if quote.Ok? && Accepted(s, i, quote.value) {
      var s' := AcceptedTakesAll(s, i, quote.value);
      QuoteIff(s.pool, s.pool.stakeWithdrawalFee, tokens, None, feeWaived, quote.value);
      assert Withdraws(s, i, a, tokens, None, feeWaived, quote.value, s');
      AccountWithdrawalIff(s, a, tokens, None, feeWaived, s');
    }
  }

  // ---------------------------------------------------------------------------------------
  // What a holder can do
  // ---------------------------------------------------------------------------------------

  /** After the fee, if one is charged, a holder of `limit` tokens can burn the given amount. */
  ghost predicate CanBurn(fee: Fee, feeWaived: bool, burnt: nat, limit: nat) {
    if feeWaived then burnt <= limit else Reachable(fee, burnt, limit)
  }

  /** A holder of `limit` tokens can burn what the account needs, and that much is in circulation. */
  ghost predicate WithinMeans(s: State, i: nat, limit: nat, feeWaived: bool)
    requires WholeOnly(s, i)
  {
    && s.pool.totalLamports > 0
    && var needed := Needed(s.pool.totalLamports, s.pool.tokenSupply, s.accounts[AccountOf(s, i)].lamports);
       needed <= s.mintSupply && CanBurn(s.pool.stakeWithdrawalFee, feeWaived, needed, limit)
  }

  lemma CanBurnLess(fee: Fee, feeWaived: bool, more: nat, less: nat, limit: nat)
    requires CanBurn(fee, feeWaived, more, limit) && less <= more
    ensures CanBurn(fee, feeWaived, less, limit)
  {
    MulMono(less, more, fee.denominator);
  }

  /** What is burnt and quoted for an amount of tokens. */
  lemma QuoteOf(s: State, tokens: nat, feeWaived: bool, q: Redemption)
    requires Quoted(s, tokens, feeWaived) == Ok(q)
    ensures if feeWaived then q.burnt == tokens else Leaves(s.pool.stakeWithdrawalFee, tokens, q.burnt)
    ensures LamportsForWithdrawal(s.pool.totalLamports, s.pool.tokenSupply, q.burnt) == Some(q.lamports)
            && q.lamports > 0
  {
  }

  lemma QuoteFrom(s: State, tokens: nat, feeWaived: bool, burnt: nat, lamports: nat)
    requires if feeWaived then burnt == tokens else Leaves(s.pool.stakeWithdrawalFee, tokens, burnt)
    requires LamportsForWithdrawal(s.pool.totalLamports, s.pool.tokenSupply, burnt) == Some(lamports) && lamports > 0
    ensures Quoted(s, tokens, feeWaived) == Ok(Redemption(burnt, lamports))
  {
  }

  lemma AcceptedIsWithinMeans(s: State, i: nat, tokens: nat, limit: nat, feeWaived: bool)
    requires Invariant(s) && WholeOnly(s, i) && tokens <= limit <= U64_MAX
    requires Quoted(s, tokens, feeWaived).Ok? && Accepted(s, i, Quoted(s, tokens, feeWaived).value)
    ensures WithinMeans(s, i, limit, feeWaived)
  {
    var q, total, supply := Quoted(s, tokens, feeWaived).value, s.pool.totalLamports, s.pool.tokenSupply;
    var balance := s.accounts[AccountOf(s, i)].lamports;
    QuoteOf(s, tokens, feeWaived, q);
    RedeemsFloor(total, supply, q.burnt, q.lamports);
    assert total > 0 by {
      EntryInOrder(s, i);
      assert Owns(s.validators[i], AccountOf(s, i));
    }
    NeededIsLeast(total, supply, balance, q.burnt);
    if !feeWaived {
      LeftIsReachable(s.pool.stakeWithdrawalFee, tokens, q.burnt, limit);
    }
    CanBurnLess(s.pool.stakeWithdrawalFee, feeWaived, q.burnt, Needed(total, supply, balance), limit);
  }

  lemma WithinMeansIsAccepted(s: State, i: nat, limit: nat, feeWaived: bool) returns (tokens: nat)
    requires Invariant(s) && WholeOnly(s, i) && limit <= U64_MAX && WithinMeans(s, i, limit, feeWaived)
    ensures tokens <= limit && Quoted(s, tokens, feeWaived).Ok? && Accepted(s, i, Quoted(s, tokens, feeWaived).value)
  {
    var total, supply, balance := s.pool.totalLamports, s.pool.tokenSupply, s.accounts[AccountOf(s, i)].lamports;
    var needed := Needed(total, supply, balance);
    NeededWithinSupply(total, supply, balance);
    CeilingHits(total, supply, balance, needed, TokenValue(s.pool));
    RedeemFits(total, supply, needed);
    assert balance > 0 by {
      EntryInOrder(s, i);
      assert Owns(s.validators[i], AccountOf(s, i));
    }
    if feeWaived {
      tokens := needed;
    } else {
      tokens := ReachableIsLeft(s.pool.stakeWithdrawalFee, needed, limit);
    }
    QuoteFrom(s, tokens, feeWaived, needed, needed * total / supply);
  }

  /**
   * Some amount within `limit` withdraws the whole account exactly when its holder can burn, after the
   * fee, the fewest tokens that redeem for the balance. Without a fee that is always so for a holder
   * of enough tokens; with one it may be out of everyone's reach.
   */
  lemma WholeAccountWithdrawableIff(s: State, i: nat, limit: nat, feeWaived: bool)
    requires Invariant(s) && s.pool.lastUpdate == s.epoch && WholeOnly(s, i) && limit <= U64_MAX
    ensures (exists tokens: nat :: tokens <= limit && WithdrawsWhole(s, i, tokens, feeWaived))
            <==> WithinMeans(s, i, limit, feeWaived)
  {
    forall tokens: nat | tokens <= limit && WithdrawsWhole(s, i, tokens, feeWaived)
      ensures WithinMeans(s, i, limit, feeWaived)
    {
      WholeWithdrawal(s, i, tokens, feeWaived);
      AcceptedIsWithinMeans(s, i, tokens, limit, feeWaived);
    }
    if WithinMeans(s, i, limit, feeWaived) {
      var tokens := WithinMeansIsAccepted(s, i, limit, feeWaived);
      WholeWithdrawal(s, i, tokens, feeWaived);
      assert WithdrawsWhole(s, i, tokens, feeWaived);
    }
  }

  /** The withdrawal succeeds and leaves the entry ready for removal and its account gone. */
  ghost predicate WithdrawsWhole(s: State, i: nat, tokens: nat, feeWaived: bool)
    requires i < |s.validators|
  {
    var r := WithdrawStake(s, Account(AccountOf(s, i)), tokens, None, feeWaived);
    && r.Ok? && i < |r.value.validators| && r.value.validators[i].Removed() && AccountOf(s, i) !in r.value.accounts
  }

  // ---------------------------------------------------------------------------------------
  // An account that nobody can withdraw
  // ---------------------------------------------------------------------------------------

  lemma HalfIsNeeded(total: nat, supply: nat, balance: nat)
    requires 0 < total <= 2 * balance
    ensures supply <= 2 * Needed(total, supply, balance)
  {
    var needed := Needed(total, supply, balance);
    CeilingBracket(total, balance * supply, needed);
    MulMono(total, 2 * balance, supply);
    assert total * supply <= 2 * (balance * supply) <= 2 * (needed * total);
    assert (2 * needed) * total == 2 * (needed * total);
    CancelFactor(supply, 2 * needed, total);
  }

  /**
   * At a fee of sixty percent an account of at least half the pool that can only be withdrawn as a
   * whole is out of reach even for the holder of every token there is.
   */
  lemma FeeBlocksEveryone(s: State, i: nat)
    requires Invariant(s) && s.pool.lastUpdate == s.epoch && WholeOnly(s, i)
    requires s.pool.stakeWithdrawalFee == Fee(5, 3)
    requires s.pool.totalLamports <= 2 * s.accounts[AccountOf(s, i)].lamports
    ensures !exists tokens: nat :: tokens <= s.mintSupply && WithdrawsWhole(s, i, tokens, false)
  {
    WholeAccountWithdrawableIff(s, i, s.mintSupply, false);
    if s.pool.totalLamports > 0 {
      HalfIsNeeded(s.pool.totalLamports, s.pool.tokenSupply, s.accounts[AccountOf(s, i)].lamports);
    }
  }

  /** A pool of one validator at the minimum, an empty reserve and a withdrawal fee of sixty percent. */
  function BlockedPool(): State {
    var none, rent, balance := Fee(0, 0), 2_282_880, 3_282_880;
    State(Pool(balance, balance, 1, none, Nothing, none, Fee(5, 3), Nothing, 0, none, 0, none, Nothing, 0, 0),
          [ValidatorStakeInfo(balance, 0, 1, 0, 0, 0, Active, 7)], 1, rent,
          map[ValidatorStake(7, 0) := StakeAccount(balance, true, rent, Delegated(balance - rent, 0, EPOCH_MAX))],
          balance, 1, Chain(rent, 1, rent))
  }

  lemma BlockedPoolIsInOrder()
    ensures Invariant(BlockedPool()) && BlockedPool().pool.lastUpdate == BlockedPool().epoch
  {
    var s := BlockedPool();
    var e := s.validators[0];
    assert Owns(s.validators[0], ValidatorStake(7, 0));
    assert SoundEntry(e, s.accounts, s.epoch);
    assert SoundAccount(s.accounts[ValidatorStake(7, 0)]);
    assert Staked(s.validators) == [e.Lamports()];
    assert Sum([e.Lamports()]) == e.Lamports();
  }

  /** In this pool the only validator account has to be withdrawn as a whole, and nobody can. */
  lemma BlockedPoolIsBlocked()
    ensures var s := BlockedPool();
            && Invariant(s) && s.pool.lastUpdate == s.epoch && WholeOnly(s, 0)
            && !exists tokens: nat :: tokens <= s.mintSupply && WithdrawsWhole(s, 0, tokens, false)
  {
    BlockedPoolIsInOrder();
    FeeBlocksEveryone(BlockedPool(), 0);
  }
}
