/** What deposits, withdrawals and rewards come to, in plain arithmetic on the handlers' states. */
module Quotes {
  import opened Base
  import opened Pricing
  import opened PriceTheorems
  import opened Fees
  import opened Sums
  import opened World
  import opened Accounting
  import opened Handlers
  import opened Steps

  /** q is a / c, rounded down. */
  ghost predicate RoundedDown(q: int, a: int, c: int) {
    q * c <= a < (q + 1) * c
  }

  /** q is a / c, rounded up. */
  ghost predicate RoundedUp(q: int, a: int, c: int) {
    (q - 1) * c < a <= q * c
  }

  lemma FloorRoundsDown(a: int, c: int)
    requires c > 0
    ensures RoundedDown(a / c, a, c)
  {
    FloorBounds(a, c);
    assert (a / c + 1) * c == a / c * c + c;
  }

  lemma CeilingRoundsUp(a: int, c: int)
    requires c > 0
    ensures RoundedUp((a + c - 1) / c, a, c)
  {
    var q := (a + c - 1) / c;
    FloorBounds(a + c - 1, c);
    assert (q - 1) * c == q * c - c;
  }

  /** The tokens for a deposit: its share of the supply rounded down, or one for one in an empty pool. */
  ghost predicate FairlyPriced(total: nat, supply: nat, lamports: nat, tokens: nat) {
    if total == 0 || supply == 0 then tokens == lamports else RoundedDown(tokens, lamports * supply, total)
  }

  /** The fee on an amount, rounded up. */
  ghost predicate Charges(fee: Fee, amount: nat, charged: nat) {
    if fee.denominator == 0 then charged == 0 else RoundedUp(charged, amount * fee.numerator, fee.denominator)
  }

  ghost predicate AtLeast(minimum: Option<nat>, amount: nat) {
    minimum.Some? ==> minimum.value <= amount
  }

  /** Who gets the minted tokens: the referrer a percentage of the fee, the manager its rest, the depositor all else. */
  ghost predicate SharedOut(m: Minted, fee: nat, percent: nat, minimum: Option<nat>) {
    && m.user + fee == m.total && m.manager + m.referrer == fee
    && RoundedDown(m.referrer, fee * percent, 100)
    && 0 < m.user && AtLeast(minimum, m.user)
  }

  lemma PricedFairly(total: nat, supply: nat, lamports: nat, tokens: nat)
    requires TokensForDeposit(total, supply, lamports) == Some(tokens)
    ensures FairlyPriced(total, supply, lamports, tokens)
  {
    if total != 0 && supply != 0 {
      FloorRoundsDown(lamports * supply, total);
    }
  }

  lemma ChargedExactly(fee: Fee, amount: nat, charged: nat)
    requires ApplyFee(fee, amount) == Some(charged)
    ensures Charges(fee, amount, charged)
  {
    if fee.denominator != 0 {
      CeilingRoundsUp(amount * fee.numerator, fee.denominator);
    }
  }

  lemma RoundsDownOnce(q: int, a: int, c: int)
    requires c > 0 && RoundedDown(q, a, c)
    ensures q == a / c
  {
    assert (q + 1) * c == q * c + c;
    FloorUnique(a, c, q);
  }

  lemma RoundsUpOnce(q: int, a: int, c: int)
    requires c > 0 && RoundedUp(q, a, c)
    ensures q == (a + c - 1) / c
  {
    assert (q - 1) * c == q * c - c;
    FloorUnique(a + c - 1, c, q);
  }

  /** The pricing function gives the fair number of tokens whenever that fits its width. */
  lemma PricedOnce(total: nat, supply: nat, lamports: nat, tokens: nat)
    requires supply <= U64_MAX && lamports <= U64_MAX && tokens <= U64_MAX
    requires FairlyPriced(total, supply, lamports, tokens)
    ensures TokensForDeposit(total, supply, lamports) == Some(tokens)
  {
    ProductBound(lamports, supply);
    if total != 0 && supply != 0 {
      RoundsDownOnce(tokens, lamports * supply, total);
    }
  }

  /** A valid fee is charged in one way only. */
  lemma ChargedOnce(fee: Fee, amount: nat, charged: nat)
    requires ValidFee(fee) && amount <= U64_MAX && Charges(fee, amount, charged)
    ensures ApplyFee(fee, amount) == TokenFee(fee, amount) == Some(charged)
  {
    ValidFeeIsAShare(fee, amount);
    if fee.denominator != 0 {
      RoundsUpOnce(charged, amount * fee.numerator, fee.denominator);
    }
  }

  /** The minted tokens are shared out in one way only. */
  lemma SharedOnce(m: Minted, fee: nat, percent: nat, minimum: Option<nat>)
    requires m.total <= U64_MAX && percent <= 100 && SharedOut(m, fee, percent, minimum)
    ensures SplitDeposit(m.total, fee, percent, minimum) == Ok(m)
  {
    RoundsDownOnce(m.referrer, fee * percent, 100);
    ProductBound(fee, percent);
  }

  lemma SharedExactly(tokens: nat, fee: nat, percent: nat, minimum: Option<nat>, m: Minted)
    requires SplitDeposit(tokens, fee, percent, minimum) == Ok(m)
    ensures m.total == tokens && SharedOut(m, fee, percent, minimum)
  {
    FloorRoundsDown(fee * percent, 100);
  }

  // ---------------------------------------------------------------------------------------
  // Deposits
  // ---------------------------------------------------------------------------------------

  /** A deposit recorded: so many lamports in, so many tokens minted. */
  ghost predicate Credited(s: State, lamports: nat, tokens: nat, s': State) {
    && s'.mintSupply == s.mintSupply + tokens
    && s'.pool == s.pool.(tokenSupply := s.pool.tokenSupply + tokens, totalLamports := s.pool.totalLamports + lamports)
  }

  /** A SOL deposit mints its fair share, charges the SOL fee on it and shares it out. */
  lemma SolDepositIsExact(s: State, lamports: nat, minimumOut: Option<nat>, s': State) returns (m: Minted, fee: nat)
    requires DepositSol(s, lamports, minimumOut) == Ok(s')
    ensures s.epoch <= s.pool.lastUpdate
    ensures FairlyPriced(s.pool.totalLamports, s.pool.tokenSupply, lamports, m.total)
    ensures Charges(s.pool.solDepositFee, m.total, fee) && SharedOut(m, fee, s.pool.solReferralFee, minimumOut)
    ensures Credited(s, lamports, m.total, s')
    ensures s' == s.(reserve := s.reserve + lamports, mintSupply := s'.mintSupply, pool := s'.pool)
  {
    m := QuoteSolDeposit(s.pool, lamports, minimumOut).value;
    fee := TokenFee(s.pool.solDepositFee, m.total).value;
    PricedFairly(s.pool.totalLamports, s.pool.tokenSupply, lamports, m.total);
    ChargedExactly(s.pool.solDepositFee, m.total, fee);
    SharedExactly(m.total, fee, s.pool.solReferralFee, minimumOut, m);
  }

  /** The SOL deposit leads from s to s', sharing out m. */
  ghost predicate DepositsSol(s: State, lamports: nat, minimumOut: Option<nat>, m: Minted, fee: nat, s': State) {
    && s.epoch <= s.pool.lastUpdate
    && FairlyPriced(s.pool.totalLamports, s.pool.tokenSupply, lamports, m.total)
    && Charges(s.pool.solDepositFee, m.total, fee) && SharedOut(m, fee, s.pool.solReferralFee, minimumOut)
    && s.pool.tokenSupply + m.total <= U64_MAX && s.pool.totalLamports + lamports <= U64_MAX
    && Credited(s, lamports, m.total, s')
    && s' == s.(reserve := s.reserve + lamports, mintSupply := s'.mintSupply, pool := s'.pool)
  }

  /** A SOL deposit succeeds exactly if the pool is up to date, it mints tokens, enough of them, and they fit. */
  lemma SolDepositIff(s: State, lamports: u64, minimumOut: Option<nat>, s': State)
    requires Invariant(s)
    ensures DepositSol(s, lamports, minimumOut) == Ok(s')
            <==> exists m, fee :: DepositsSol(s, lamports, minimumOut, m, fee, s')
  {
    if DepositSol(s, lamports, minimumOut) == Ok(s') {
      var m, fee := SolDepositIsExact(s, lamports, minimumOut, s');
      assert DepositsSol(s, lamports, minimumOut, m, fee, s');
    }
    forall m, fee | DepositsSol(s, lamports, minimumOut, m, fee, s')
      ensures DepositSol(s, lamports, minimumOut) == Ok(s')
    {
      PricedOnce(s.pool.totalLamports, s.pool.tokenSupply, lamports, m.total);
      ChargedOnce(s.pool.solDepositFee, m.total, fee);
      SharedOnce(m, fee, s.pool.solReferralFee, minimumOut);
    }
  }

  /** The quote of a stake deposit: the stake fee on the tokens for what is delegated, the SOL fee on the rest. */
  ghost predicate StakeQuote(p: Pool, lamports: nat, delegated: nat, minimumOut: Option<nat>, m: Minted,
                             fromStake: nat, stakeFee: nat, solFee: nat) {
    && FairlyPriced(p.totalLamports, p.tokenSupply, lamports, m.total)
    && FairlyPriced(p.totalLamports, p.tokenSupply, delegated, fromStake) && fromStake <= m.total
    && Charges(p.stakeDepositFee, fromStake, stakeFee)
    && Charges(p.solDepositFee, m.total - fromStake, solFee)
    && SharedOut(m, stakeFee + solFee, p.stakeReferralFee, minimumOut)
  }

  lemma StakeQuoteIsExact(p: Pool, lamports: nat, delegated: nat, minimumOut: Option<nat>, m: Minted)
    returns (fromStake: nat, stakeFee: nat, solFee: nat)
    requires QuoteStakeDeposit(p, lamports, delegated, minimumOut) == Ok(m)
    ensures StakeQuote(p, lamports, delegated, minimumOut, m, fromStake, stakeFee, solFee)
  {
    fromStake, stakeFee, solFee := StakeQuoteParts(p, lamports, delegated, minimumOut, m);
    PricedFairly(p.totalLamports, p.tokenSupply, lamports, m.total);
    PricedFairly(p.totalLamports, p.tokenSupply, delegated, fromStake);
    ChargedExactly(p.stakeDepositFee, fromStake, stakeFee);
    ChargedExactly(p.solDepositFee, m.total - fromStake, solFee);
    SharedExactly(m.total, stakeFee + solFee, p.stakeReferralFee, minimumOut, m);
  }

  lemma StakeQuoteParts(p: Pool, lamports: nat, delegated: nat, minimumOut: Option<nat>, m: Minted)
    returns (fromStake: nat, stakeFee: nat, solFee: nat)
    requires QuoteStakeDeposit(p, lamports, delegated, minimumOut) == Ok(m)
    ensures TokensForDeposit(p.totalLamports, p.tokenSupply, lamports) == Some(m.total)
    ensures TokensForDeposit(p.totalLamports, p.tokenSupply, delegated) == Some(fromStake) && fromStake <= m.total
    ensures ApplyFee(p.stakeDepositFee, fromStake) == Some(stakeFee)
    ensures ApplyFee(p.solDepositFee, m.total - fromStake) == Some(solFee)
    ensures SplitDeposit(m.total, stakeFee + solFee, p.stakeReferralFee, minimumOut) == Ok(m)
  {
    fromStake := TokensForDeposit(p.totalLamports, p.tokenSupply, delegated).value;
    stakeFee := TokenFee(p.stakeDepositFee, fromStake).value;
    solFee := TokenFee(p.solDepositFee, m.total - fromStake).value;
  }

  lemma StakeQuoteOnce(p: Pool, lamports: u64, delegated: nat, minimumOut: Option<nat>, m: Minted,
                       fromStake: nat, stakeFee: nat, solFee: nat)
    requires ValidFees(p) && p.tokenSupply <= U64_MAX && delegated <= lamports && m.total <= U64_MAX
    requires StakeQuote(p, lamports, delegated, minimumOut, m, fromStake, stakeFee, solFee)
    ensures QuoteStakeDeposit(p, lamports, delegated, minimumOut) == Ok(m)
  {
    PricedOnce(p.totalLamports, p.tokenSupply, lamports, m.total);
    PricedOnce(p.totalLamports, p.tokenSupply, delegated, fromStake);
    ChargedOnce(p.stakeDepositFee, fromStake, stakeFee);
    ChargedOnce(p.solDepositFee, m.total - fromStake, solFee);
    SharedOnce(m, stakeFee + solFee, p.stakeReferralFee, minimumOut);
  }

  /** What is delegated joins the stake of the active validator i, the rest the reserve. */
  ghost predicate Joins(s: State, vote: Pubkey, lamports: nat, delegated: nat, i: nat, s': State) {
    && i < |s.validators| && s.validators[i].vote == vote && s.validators[i].status == Active && delegated <= lamports
    && var va := s.validators[i].ValidatorAddress();
       && va in s.accounts && s.accounts[va].state.Delegated?
       && var account := s.accounts[va];
          var account' := account.(lamports := account.lamports + delegated,
                                   state := account.state.(stake := account.state.stake + delegated));
          s' == s.(validators := s.validators[i := s.validators[i].(active := account'.lamports)],
                   accounts := s.accounts[va := account'], reserve := s.reserve + lamports - delegated,
                   mintSupply := s'.mintSupply, pool := s'.pool)
  }

  /** Joining and crediting is what the handler does with its quote. */
  lemma JoinsExactly(s: State, i: nat, lamports: nat, delegated: nat, minimumOut: Option<nat>, m: Minted, s': State)
    requires i < |s.validators| && s.validators[i].status == Active
    requires s.validators[i].ValidatorAddress() in s.accounts
    requires s.accounts[s.validators[i].ValidatorAddress()].state.Delegated?
    requires QuoteStakeDeposit(s.pool, lamports, delegated, minimumOut) == Ok(m) && s.mintSupply <= s.pool.tokenSupply
    ensures DepositInto(s, i, lamports, delegated, minimumOut) == Ok(s')
            <==> Joins(s, s.validators[i].vote, lamports, delegated, i, s') && Credited(s, lamports, m.total, s')
                 && s.pool.tokenSupply + m.total <= U64_MAX && s.pool.totalLamports + lamports <= U64_MAX
  {
  }

  /** The stake deposit leads from s to s', sharing out m. */
  ghost predicate DepositsStake(s: State, vote: Pubkey, lamports: nat, delegated: nat, minimumOut: Option<nat>,
                                i: nat, m: Minted, fromStake: nat, stakeFee: nat, solFee: nat, s': State) {
    && s.epoch <= s.pool.lastUpdate
    && StakeQuote(s.pool, lamports, delegated, minimumOut, m, fromStake, stakeFee, solFee)
    && s.pool.tokenSupply + m.total <= U64_MAX && s.pool.totalLamports + lamports <= U64_MAX
    && Joins(s, vote, lamports, delegated, i, s') && Credited(s, lamports, m.total, s')
  }

  lemma StakeDepositIsExact(s: State, vote: Pubkey, lamports: nat, delegated: nat, minimumOut: Option<nat>, s': State)
    returns (i: nat, m: Minted, fromStake: nat, stakeFee: nat, solFee: nat)
    requires s.mintSupply <= s.pool.tokenSupply
    requires DepositStake(s, vote, lamports, delegated, minimumOut) == Ok(s')
    ensures DepositsStake(s, vote, lamports, delegated, minimumOut, i, m, fromStake, stakeFee, solFee, s')
  {
    i := Find(s, vote).value;
    m := QuoteStakeDeposit(s.pool, lamports, delegated, minimumOut).value;
    fromStake, stakeFee, solFee := StakeQuoteIsExact(s.pool, lamports, delegated, minimumOut, m);
    JoinsExactly(s, i, lamports, delegated, minimumOut, m, s');
  }

  /**
   * A stake deposit succeeds exactly if the pool is up to date, its validator is active, it mints tokens,
   * enough of them, and they fit.
   */
  lemma StakeDepositIff(s: State, vote: Pubkey, lamports: u64, delegated: nat, minimumOut: Option<nat>, s': State)
    requires Invariant(s)
    ensures DepositStake(s, vote, lamports, delegated, minimumOut) == Ok(s')
            <==> exists i, m, fromStake, stakeFee, solFee ::
                   DepositsStake(s, vote, lamports, delegated, minimumOut, i, m, fromStake, stakeFee, solFee, s')
  {
    if DepositStake(s, vote, lamports, delegated, minimumOut) == Ok(s') {
      var i, m, fromStake, stakeFee, solFee :=
        StakeDepositIsExact(s, vote, lamports, delegated, minimumOut, s');
      assert DepositsStake(s, vote, lamports, delegated, minimumOut, i, m, fromStake, stakeFee, solFee, s');
    }
    forall i, m, fromStake, stakeFee, solFee |
      DepositsStake(s, vote, lamports, delegated, minimumOut, i, m, fromStake, stakeFee, solFee, s')
      ensures DepositStake(s, vote, lamports, delegated, minimumOut) == Ok(s')
    {
      FindsTheOnlyEntry(s, i);
      StakeQuoteOnce(s.pool, lamports, delegated, minimumOut, m, fromStake, stakeFee, solFee);
      JoinsExactly(s, i, lamports, delegated, minimumOut, m, s');
    }
  }

  // ---------------------------------------------------------------------------------------
  // Withdrawals
  // ---------------------------------------------------------------------------------------

  /** What a withdrawal of `tokens` burns and pays: the fee stays with the manager, the rest redeems its share. */
  ghost predicate RedeemedFairly(p: Pool, fee: Fee, tokens: nat, minimum: Option<nat>, feeWaived: bool, charged: nat,
                                 q: Redemption) {
    && (if feeWaived then charged == 0 else Charges(fee, tokens, charged))
    && q.burnt + charged == tokens
    && 0 < p.tokenSupply && RoundedDown(q.lamports, q.burnt * p.totalLamports, p.tokenSupply)
    && 0 < q.lamports && AtLeast(minimum, q.lamports)
  }

  lemma WithdrawalQuoteIsExact(p: Pool, fee: Fee, tokens: nat, minimumOut: Option<nat>, feeWaived: bool, q: Redemption)
    returns (charged: nat)
    requires QuoteWithdrawal(p, fee, tokens, minimumOut, feeWaived) == Ok(q)
    ensures RedeemedFairly(p, fee, tokens, minimumOut, feeWaived, charged, q)
  {
    charged := if feeWaived then 0 else TokenFee(fee, tokens).value;
    if !feeWaived {
      ChargedExactly(fee, tokens, charged);
    }
    RedeemsFloor(p.totalLamports, p.tokenSupply, q.burnt, q.lamports);
    FloorRoundsDown(q.burnt * p.totalLamports, p.tokenSupply);
  }

  /** A quote is given exactly for the fair redemption, if that fits its width. */
  lemma QuoteIff(p: Pool, fee: Fee, tokens: u64, minimumOut: Option<nat>, feeWaived: bool, q: Redemption)
    requires ValidFee(fee) && p.totalLamports <= U64_MAX && p.tokenSupply <= U64_MAX
    ensures QuoteWithdrawal(p, fee, tokens, minimumOut, feeWaived) == Ok(q)
            <==> Offered(p, fee, tokens, minimumOut, feeWaived, q)
  {
    if QuoteWithdrawal(p, fee, tokens, minimumOut, feeWaived) == Ok(q) {
      var charged := WithdrawalQuoteIsExact(p, fee, tokens, minimumOut, feeWaived, q);
    }
    if Offered(p, fee, tokens, minimumOut, feeWaived, q) {
      if !feeWaived {
        ChargedOnce(fee, tokens, tokens - q.burnt);
      }
      RedeemedOnce(p.totalLamports, p.tokenSupply, q.burnt, q.lamports);
    }
  }

  lemma RedeemedOnce(total: nat, supply: nat, tokens: nat, lamports: nat)
    requires total <= U64_MAX && tokens <= U64_MAX && 0 < supply && 0 < lamports <= U64_MAX
    requires RoundedDown(lamports, tokens * total, supply)
    ensures LamportsForWithdrawal(total, supply, tokens) == Some(lamports)
  {
    RoundsDownOnce(lamports, tokens * total, supply);
    ProductBound(tokens, total);
    MulMono(1, lamports, supply);
  }

  /** The fair redemption of `tokens`, in lamports that fit their width. */
  ghost predicate Offered(p: Pool, fee: Fee, tokens: nat, minimum: Option<nat>, feeWaived: bool, q: Redemption) {
    && q.burnt <= tokens && q.lamports <= U64_MAX
    && RedeemedFairly(p, fee, tokens, minimum, feeWaived, tokens - q.burnt, q)
  }

  /** A withdrawal recorded: so many tokens burnt, so many lamports out. */
  ghost predicate Debited(s: State, lamports: nat, tokens: nat, s': State) {
    && tokens <= s.mintSupply && tokens <= s.pool.tokenSupply && lamports <= s.pool.totalLamports
    && s'.mintSupply == s.mintSupply - tokens
    && s'.pool == s.pool.(tokenSupply := s.pool.tokenSupply - tokens, totalLamports := s.pool.totalLamports - lamports)
  }

  /** A SOL withdrawal charges the SOL fee and pays its share from the reserve, which keeps its rent. */
  lemma SolWithdrawalIsExact(s: State, tokens: nat, minimumOut: Option<nat>, feeWaived: bool, s': State)
    returns (charged: nat, q: Redemption)
    requires WithdrawSol(s, tokens, minimumOut, feeWaived) == Ok(s')
    ensures s.epoch <= s.pool.lastUpdate
    ensures RedeemedFairly(s.pool, s.pool.solWithdrawalFee, tokens, minimumOut, feeWaived, charged, q)
    ensures Debited(s, q.lamports, q.burnt, s')
    ensures s.chain.reserveRent <= s'.reserve
    ensures s' == s.(reserve := s.reserve - q.lamports, mintSupply := s'.mintSupply, pool := s'.pool)
  {
    q := QuoteWithdrawal(s.pool, s.pool.solWithdrawalFee, tokens, minimumOut, feeWaived).value;
    charged := WithdrawalQuoteIsExact(s.pool, s.pool.solWithdrawalFee, tokens, minimumOut, feeWaived, q);
  }

  /** A SOL withdrawal leads from s to s', redeeming q. */
  ghost predicate WithdrawsSol(s: State, tokens: nat, minimumOut: Option<nat>, feeWaived: bool, q: Redemption,
                               s': State) {
    && s.epoch <= s.pool.lastUpdate
    && Offered(s.pool, s.pool.solWithdrawalFee, tokens, minimumOut, feeWaived, q)
    && Debited(s, q.lamports, q.burnt, s')
    && q.lamports <= s.reserve && s.chain.reserveRent <= s'.reserve
    && s' == s.(reserve := s.reserve - q.lamports, mintSupply := s'.mintSupply, pool := s'.pool)
  }

  /** A SOL withdrawal succeeds exactly if the pool is up to date and the reserve can pay the fair redemption. */
  lemma SolWithdrawalIff(s: State, tokens: u64, minimumOut: Option<nat>, feeWaived: bool, s': State)
    requires Invariant(s)
    ensures WithdrawSol(s, tokens, minimumOut, feeWaived) == Ok(s')
            <==> exists q :: WithdrawsSol(s, tokens, minimumOut, feeWaived, q, s')
  {
    if WithdrawSol(s, tokens, minimumOut, feeWaived) == Ok(s') {
      var q := QuoteWithdrawal(s.pool, s.pool.solWithdrawalFee, tokens, minimumOut, feeWaived).value;
      QuoteIff(s.pool, s.pool.solWithdrawalFee, tokens, minimumOut, feeWaived, q);
      assert WithdrawsSol(s, tokens, minimumOut, feeWaived, q, s');
    }
    forall q | WithdrawsSol(s, tokens, minimumOut, feeWaived, q, s')
      ensures WithdrawSol(s, tokens, minimumOut, feeWaived) == Ok(s')
    {
      QuoteIff(s.pool, s.pool.solWithdrawalFee, tokens, minimumOut, feeWaived, q);
    }
  }

  /** A stake withdrawal charges the stake fee; it pays its share, or the whole account it is truncated to. */
  lemma StakeWithdrawalIsExact(s: State, source: Source, tokens: nat, minimumOut: Option<nat>, feeWaived: bool,
                               s': State)
    returns (charged: nat, q: Redemption, paid: nat)
    requires WithdrawStake(s, source, tokens, minimumOut, feeWaived) == Ok(s')
    ensures s.epoch <= s.pool.lastUpdate
    ensures RedeemedFairly(s.pool, s.pool.stakeWithdrawalFee, tokens, minimumOut, feeWaived, charged, q)
    ensures paid <= q.lamports && Debited(s, paid, q.burnt, s')
  {
    var taken;
    q, taken := WithdrawStakeDebits(s, source, tokens, minimumOut, feeWaived, s');
    charged := WithdrawalQuoteIsExact(s.pool, s.pool.stakeWithdrawalFee, tokens, minimumOut, feeWaived, q);
    paid := taken.1;
  }

  // ---------------------------------------------------------------------------------------
  // The round trip
  // ---------------------------------------------------------------------------------------

  /** Redeeming what a deposit minted returns the deposit less at most one token's value, rounded up. */
  lemma RoundTrip(total: nat, supply: nat, lamports: nat, minted: nat, paid: nat)
    requires total > 0 && supply > 0 && FairlyPriced(total, supply, lamports, minted)
    requires RoundedDown(paid, minted * (total + lamports), supply + minted)
    ensures paid <= lamports && (lamports - paid) * (supply + minted) < total + (supply + minted)
  {
    var all := supply + minted;
    assert lamports * all - minted * (total + lamports) == lamports * supply - minted * total;
    assert (minted + 1) * total == minted * total + total;
    assert (paid + 1) * all == paid * all + all;
    assert (lamports - paid) * all == lamports * all - paid * all;
    CancelFactor(paid, lamports, all);
  }

  /** Without fees, depositing and withdrawing right after loses at most the rounding. */
  lemma DepositThenWithdraw(s: State, lamports: nat, s': State, s'': State)
    requires s.pool.totalLamports > 0 && s.pool.tokenSupply > 0 && s.pool.solDepositFee.numerator == 0
    requires DepositSol(s, lamports, None) == Ok(s')
    requires WithdrawSol(s', s'.mintSupply - s.mintSupply, None, true) == Ok(s'')
    ensures s.reserve <= s''.reserve
    ensures (s''.reserve - s.reserve) * s'.pool.tokenSupply < s.pool.totalLamports + s'.pool.tokenSupply
  {
    var m, fee := SolDepositIsExact(s, lamports, None, s');
    var charged, q := SolWithdrawalIsExact(s', m.total, None, true, s'');
    RoundTrip(s.pool.totalLamports, s.pool.tokenSupply, lamports, m.total, q.lamports);
  }

  // ---------------------------------------------------------------------------------------
  // Rewards
  // ---------------------------------------------------------------------------------------

  /** The tokens that give the manager `charged` of a pool that has grown to `total`. */
  ghost predicate FeeMinted(total: nat, supply: nat, charged: nat, reward: nat, minted: nat) {
    if total == charged || supply == 0 then minted == reward
    else charged < total && RoundedDown(minted, supply * charged, total - charged)
  }

  /**
   * A balance update mints the epoch fee in force before it on the reward it finds, if there is one and
   * the fee account is valid, and nothing otherwise; the first one of an epoch remembers the old totals.
   */
  lemma RewardIsExact(s: State, feeAccountValid: bool, s': State) returns (reward: nat, charged: nat)
    requires UpdateBalance(s, feeAccountValid) == Ok(s')
    ensures reward == Max(s'.pool.totalLamports - s.pool.totalLamports, 0)
    ensures Charges(s.pool.epochFee, reward, charged)
    ensures s.mintSupply <= s'.mintSupply
    ensures var minted := s'.mintSupply - s.mintSupply;
            if !feeAccountValid || reward == 0 then minted == 0
            else FeeMinted(s.pool.totalLamports + reward, s.pool.tokenSupply, charged, reward, minted)
    ensures s'.pool.tokenSupply == s'.mintSupply
    ensures s.pool.lastUpdate < s.epoch ==>
              s'.pool.lastEpochTotal == s.pool.totalLamports && s'.pool.lastEpochSupply == s.pool.tokenSupply
    ensures s' == s.(mintSupply := s'.mintSupply, pool := s'.pool)
  {
    reward := SatSub(s'.pool.totalLamports, s.pool.totalLamports);
    if !feeAccountValid || reward == 0 {
      charged := FeeOn(s.pool.epochFee, reward);
    } else {
      charged := ApplyFee(s.pool.epochFee, reward).value;
      ChargedExactly(s.pool.epochFee, reward, charged);
      if s.pool.totalLamports + reward != charged && s.pool.tokenSupply != 0 {
        FloorRoundsDown(s.pool.tokenSupply * charged, s.pool.totalLamports + reward - charged);
      }
    }
  }

  /** Every amount has a rounded-up fee. */
  lemma FeeOn(fee: Fee, amount: nat) returns (charged: nat)
    ensures Charges(fee, amount, charged)
  {
    if fee.denominator == 0 {
      charged := 0;
    } else {
      CeilingRoundsUp(amount * fee.numerator, fee.denominator);
      charged := (amount * fee.numerator + fee.denominator - 1) / fee.denominator;
    }
  }

  /** A pending fee after an update that opens an epoch. */
  ghost predicate Ripens(now: Fee, next: FutureEpoch<Fee>, now': Fee, next': FutureEpoch<Fee>) {
    match next
    case Nothing => now' == now && next' == Nothing
    case One(fee) => now' == fee && next' == Nothing
    case Two(fee) => now' == now && next' == One(fee)
  }

  /** The fees and records of the pool after a balance update. */
  ghost predicate Carried(p: Pool, epoch: nat, p': Pool) {
    if epoch <= p.lastUpdate then
      p' == p.(totalLamports := p'.totalLamports, tokenSupply := p'.tokenSupply)
    else
      && Ripens(p.epochFee, p.nextEpochFee, p'.epochFee, p'.nextEpochFee)
      && Ripens(p.stakeWithdrawalFee, p.nextStakeWithdrawalFee, p'.stakeWithdrawalFee, p'.nextStakeWithdrawalFee)
      && Ripens(p.solWithdrawalFee, p.nextSolWithdrawalFee, p'.solWithdrawalFee, p'.nextSolWithdrawalFee)
      && p'.stakeDepositFee == p.stakeDepositFee && p'.solDepositFee == p.solDepositFee
      && p'.stakeReferralFee == p.stakeReferralFee && p'.solReferralFee == p.solReferralFee
      && p'.lastUpdate == epoch && p'.lastEpochTotal == p.totalLamports && p'.lastEpochSupply == p.tokenSupply
  }

  /** The balance update leads from s to s', minting the fee `charged` on what has been gained. */
  ghost predicate Updates(s: State, feeAccountValid: bool, charged: nat, s': State) {
    && AllFresh(s.validators, s.epoch)
    && s.chain.reserveRent <= s.reserve
    && s'.pool.totalLamports + s.chain.reserveRent == s.reserve + Sum(Staked(s.validators))
    && s'.pool.totalLamports <= U64_MAX && s.mintSupply <= s'.mintSupply == s'.pool.tokenSupply <= U64_MAX
    && (var reward := Max(s'.pool.totalLamports - s.pool.totalLamports, 0);
        var minted := s'.mintSupply - s.mintSupply;
        && Charges(s.pool.epochFee, reward, charged)
        && if !feeAccountValid || reward == 0 then minted == 0
           else FeeMinted(s'.pool.totalLamports, s.pool.tokenSupply, charged, reward, minted))
    && Carried(s.pool, s.epoch, s'.pool)
    && s' == s.(mintSupply := s'.mintSupply, pool := s'.pool)
  }

  lemma UpdateCarries(p: Pool, epoch: nat, total: nat, supply: nat, p': Pool)
    ensures p' == AdvanceFees(p, epoch).(totalLamports := total, tokenSupply := supply)
            <==> p'.totalLamports == total && p'.tokenSupply == supply && Carried(p, epoch, p')
  {
  }

  lemma FeeMintedOnce(total: nat, supply: nat, fee: Fee, charged: nat, reward: nat, minted: nat)
    requires ValidFee(fee) && 0 < reward && total + reward <= U64_MAX && supply <= U64_MAX && minted <= U64_MAX
    requires Charges(fee, reward, charged) && FeeMinted(total + reward, supply, charged, reward, minted)
    ensures EpochFeeTokens(total, supply, fee, reward) == Some(minted)
  {
    ChargedOnce(fee, reward, charged);
    ValidFeeIsAShare(fee, reward);
    ProductBound(supply, charged);
    if total + reward != charged && supply != 0 {
      RoundsDownOnce(minted, supply * charged, total + reward - charged);
    }
  }

  lemma UpdateIsExact(s: State, feeAccountValid: bool, s': State) returns (charged: nat)
    requires Invariant(s) && s.reserve <= U64_MAX && UpdateBalance(s, feeAccountValid) == Ok(s')
    ensures Updates(s, feeAccountValid, charged, s')
  {
    var reward;
    reward, charged := RewardIsExact(s, feeAccountValid, s');
    UpdateBalanceKeeps(s, feeAccountValid, s');
    TotalStakeIsTheSum(s.validators, s.epoch, s.reserve - s.chain.reserveRent);
    UpdateCarries(s.pool, s.epoch, s'.pool.totalLamports, s'.mintSupply, s'.pool);
  }

  lemma UpdateSucceeds(s: State, feeAccountValid: bool, charged: nat, s': State)
    requires Invariant(s) && s.reserve <= U64_MAX && Updates(s, feeAccountValid, charged, s')
    ensures UpdateBalance(s, feeAccountValid) == Ok(s')
  {
    var total := s'.pool.totalLamports;
    var reward := Max(total - s.pool.totalLamports, 0);
    TotalStakeIsTheSum(s.validators, s.epoch, s.reserve - s.chain.reserveRent);
    UpdateCarries(s.pool, s.epoch, total, s'.mintSupply, s'.pool);
    if feeAccountValid && reward > 0 {
      FeeMintedOnce(s.pool.totalLamports, s.pool.tokenSupply, s.pool.epochFee, charged, reward,
                    s'.mintSupply - s.mintSupply);
    }
  }

  /**
   * A balance update succeeds exactly if every record is fresh and the new totals fit; it records what the
   * pool holds, mints the fee on what has been gained and lets pending fees ripen.
   */
  lemma UpdateIff(s: State, feeAccountValid: bool, s': State)
    requires Invariant(s) && s.reserve <= U64_MAX
    ensures UpdateBalance(s, feeAccountValid) == Ok(s') <==> exists charged :: Updates(s, feeAccountValid, charged, s')
  {
    if UpdateBalance(s, feeAccountValid) == Ok(s') {
      var charged := UpdateIsExact(s, feeAccountValid, s');
    }
    forall charged | Updates(s, feeAccountValid, charged, s')
      ensures UpdateBalance(s, feeAccountValid) == Ok(s')
    {
      UpdateSucceeds(s, feeAccountValid, charged, s');
    }
  }
}
