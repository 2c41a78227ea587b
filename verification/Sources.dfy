/** Where a stake withdrawal has to take its stake from, and when it succeeds there. */
module Sources {
  import opened Base
  import opened World
  import opened Accounting
  import opened Handlers
  import opened Steps
  import opened Quotes

  /** The value of a token can be computed in the width of the totals. */
  ghost predicate Countable(p: Pool) {
    0 < p.tokenSupply && p.totalLamports + p.tokenSupply <= U64_MAX
  }

  /** The value of one token, rounded up. */
  ghost function TokenValue(p: Pool): (n: nat)
    requires Countable(p)
    ensures RoundedUp(n, p.totalLamports, p.tokenSupply)
  {
    CeilingRoundsUp(p.totalLamports, p.tokenSupply);
    (p.totalLamports + p.tokenSupply - 1) / p.tokenSupply
  }

  /** What an account that stays has to keep. */
  ghost function Required(s: State, rent: nat): nat {
    Min(rent + s.chain.MinimumDelegation(), U64_MAX)
  }

  /** Stake above this is worth withdrawing: what has to stay and one token more. */
  ghost function Limit(s: State, rent: nat): nat
    requires Countable(s.pool)
  {
    Min(Required(s, rent) + TokenValue(s.pool), U64_MAX)
  }

  /** Some active validator shows more active stake than the limit. */
  ghost predicate ActiveAbove(s: State, limit: nat) {
    exists k :: 0 <= k < |s.validators| && s.validators[k].status == Active && limit < s.validators[k].active
  }

  /** Some active validator shows more transient stake than the limit. */
  ghost predicate TransientAbove(s: State, limit: nat) {
    exists k :: 0 <= k < |s.validators| && s.validators[k].status == Active && limit < s.validators[k].transient
  }

  lemma SearchesAgree(s: State, limit: nat)
    ensures HasActive(s.validators, limit) == ActiveAbove(s, limit)
    ensures HasTransient(s.validators, limit) == TransientAbove(s, limit)
  {
  }

  /** The state s with tokens burnt and lamports paid. */
  ghost function Paid(s: State, lamports: nat, tokens: nat): State
    requires tokens <= s.mintSupply <= s.pool.tokenSupply && lamports <= s.pool.totalLamports
  {
    s.(mintSupply := s.mintSupply - tokens,
       pool := s.pool.(tokenSupply := s.pool.tokenSupply - tokens, totalLamports := s.pool.totalLamports - lamports))
  }

  /** The account after so many lamports, and as much of its stake, are split off. */
  ghost function After(account: StakeAccount, lamports: nat): StakeAccount
    requires account.state.Delegated? && lamports <= account.lamports
  {
    account.(lamports := account.lamports - lamports,
             state := account.state.(stake := Max(account.state.stake - lamports, 0)))
  }

  /** The quote is split off the validator account, or the transient one, of entry i; nothing else moves. */
  ghost predicate Splits(s: State, i: nat, transient: bool, q: Redemption, s': State)
    requires i < |s.validators|
  {
    var e, a := s.validators[i], s.validators[i].AddressFor(transient);
    && a in s.accounts && s.accounts[a].state.Delegated?
    && q.burnt <= s.mintSupply <= s.pool.tokenSupply && q.lamports <= s.pool.totalLamports
    && q.lamports + Required(s, s.accounts[a].rent) <= s.accounts[a].lamports
    && q.lamports <= (if transient then e.transient else e.active)
    && s' == Paid(s, q.lamports, q.burnt).(
               accounts := s.accounts[a := After(s.accounts[a], q.lamports)],
               validators := s.validators[i := if transient then e.(transient := e.transient - q.lamports)
                                               else e.(active := e.active - q.lamports)])
  }

  /** The whole validator account of entry i goes, for a quote of its balance and at most one token more. */
  ghost predicate TakesAll(s: State, i: nat, q: Redemption, s': State)
    requires i < |s.validators| && Countable(s.pool)
  {
    var e, a := s.validators[i], s.validators[i].ValidatorAddress();
    && a in s.accounts && s.accounts[a].state.Delegated?
    && q.burnt <= s.mintSupply <= s.pool.tokenSupply && s.accounts[a].lamports <= s.pool.totalLamports
    && s.accounts[a].lamports <= q.lamports <= Min(s.accounts[a].lamports + TokenValue(s.pool), U64_MAX)
    && s' == Paid(s, s.accounts[a].lamports, q.burnt).(
               accounts := s.accounts - {a},
               validators := s.validators[i := e.(active := 0, status := ReadyForRemoval)])
  }

  /**
   * As long as an active validator has active stake to spare, a withdrawal splits a validator account;
   * then, as long as one has transient stake to spare or the entry itself shows any, a transient account;
   * and only then it takes a validator account as a whole.
   */
  ghost predicate TakesInTurn(s: State, i: nat, a: Address, q: Redemption, s': State)
    requires i < |s.validators| && Countable(s.pool)
  {
    var e := s.validators[i];
    && a in s.accounts && e.status == Active
    && var limit := Limit(s, s.accounts[a].rent);
       if ActiveAbove(s, limit) then a == e.ValidatorAddress() && Splits(s, i, false, q, s')
       else if TransientAbove(s, limit) || e.transient != 0 then a == e.TransientAddress() && Splits(s, i, true, q, s')
       else a == e.ValidatorAddress() && TakesAll(s, i, q, s')
  }

  /** Only when no active validator has stake to spare does the reserve pay, and it keeps its rent. */
  ghost predicate ReservePays(s: State, q: Redemption, s': State)
    requires Countable(s.pool)
  {
    var limit := Limit(s, s.chain.reserveRent);
    && !ActiveAbove(s, limit) && !TransientAbove(s, limit)
    && q.burnt <= s.mintSupply <= s.pool.tokenSupply && q.lamports <= s.pool.totalLamports
    && q.lamports <= s.reserve && s.chain.reserveRent <= Max(s.reserve - q.lamports, 0)
    && s' == Paid(s, q.lamports, q.burnt).(reserve := s.reserve - q.lamports)
  }

  // ---------------------------------------------------------------------------------------
  // The handler follows the order
  // ---------------------------------------------------------------------------------------

  /** Taking the stake and debiting the totals gives s'. */
  ghost predicate TakenAs(s: State, source: Source, q: Redemption, s': State) {
    var taken := TakeStake(s, source, q);
    taken.Ok? && Debit(taken.value.0, taken.value.1, q.burnt) == Ok(s')
  }

  lemma PartSplitsOff(s: State, i: nat, from: WithdrawSource, q: Redemption, s': State)
    requires Invariant(s) && s.pool.lastUpdate == s.epoch && i < |s.validators| && from != ValidatorRemoval
    requires var a := s.validators[i].AddressFor(from == FromTransient);
             a in s.accounts && s.accounts[a].state.Delegated?
    ensures var a := s.validators[i].AddressFor(from == FromTransient);
            var taken := TakeFromAccount(s, i, q, SatAdd(s.accounts[a].rent, s.chain.MinimumDelegation()), from);
            (taken.Ok? && Debit(taken.value.0, taken.value.1, q.burnt) == Ok(s'))
            <==> Splits(s, i, from == FromTransient, q, s')
  {
    EntryInOrder(s, i);
  }

  lemma WholeIsTaken(s: State, i: nat, q: Redemption, s': State)
    requires Invariant(s) && s.pool.lastUpdate == s.epoch && i < |s.validators| && Countable(s.pool)
    requires var a := s.validators[i].ValidatorAddress(); a in s.accounts && s.accounts[a].state.Delegated?
    ensures var taken := TakeWholeAccount(s, i, q, TokenValue(s.pool));
            (taken.Ok? && Debit(taken.value.0, taken.value.1, q.burnt) == Ok(s')) <==> TakesAll(s, i, q, s')
  {
    EntryInOrder(s, i);
  }

  lemma EntryTakesInTurn(s: State, i: nat, a: Address, q: Redemption, s': State)
    requires Invariant(s) && s.pool.lastUpdate == s.epoch && i < |s.validators| && Countable(s.pool)
    requires a in s.accounts && s.accounts[a].state.Delegated? && Owns(s.validators[i], a)
    ensures TakenAs(s, Account(a), q, s') <==> TakesInTurn(s, i, a, q, s')
  {
    FindsTheOnlyEntry(s, i);
    SearchesAgree(s, Limit(s, s.accounts[a].rent));
    if a == s.validators[i].ValidatorAddress() {
      PartSplitsOff(s, i, FromActive, q, s');
      WholeIsTaken(s, i, q, s');
    } else {
      PartSplitsOff(s, i, FromTransient, q, s');
    }
  }

  lemma ReserveTakenAs(s: State, q: Redemption, s': State)
    requires s.mintSupply <= s.pool.tokenSupply && Countable(s.pool)
    ensures TakenAs(s, Reserve, q, s') <==> ReservePays(s, q, s')
  {
    SearchesAgree(s, Limit(s, s.chain.reserveRent));
  }

  /** Whatever account is taken from belongs to an entry. */
  lemma TakenFromAnEntry(s: State, a: Address, q: Redemption) returns (i: nat)
    requires TakeStake(s, Account(a), q).Ok?
    ensures Countable(s.pool) && a in s.accounts && s.accounts[a].state.Delegated?
    ensures i < |s.validators| && Owns(s.validators[i], a)
  {
    i := Find(s, a.vote).value;
  }

  /** The quote of a stake withdrawal is fair, and the stake is taken for it. */
  lemma QuotedAndTaken(s: State, source: Source, tokens: u64, minimumOut: Option<nat>, feeWaived: bool, s': State)
    requires Invariant(s)
    ensures WithdrawStake(s, source, tokens, minimumOut, feeWaived) == Ok(s')
            <==> s.pool.lastUpdate == s.epoch
                 && exists q :: OfferedAs(s, tokens, minimumOut, feeWaived, q) && TakenAs(s, source, q, s')
  {
    var quote := QuoteWithdrawal(s.pool, s.pool.stakeWithdrawalFee, tokens, minimumOut, feeWaived);
    forall q
      ensures quote == Ok(q) <==> OfferedAs(s, tokens, minimumOut, feeWaived, q)
    {
      QuoteIff(s.pool, s.pool.stakeWithdrawalFee, tokens, minimumOut, feeWaived, q);
    }
    if quote.Ok? {
      assert OfferedAs(s, tokens, minimumOut, feeWaived, quote.value);
    }
  }

  /** The fair redemption of the tokens, by the stake withdrawal fee. */
  ghost predicate OfferedAs(s: State, tokens: nat, minimumOut: Option<nat>, feeWaived: bool, q: Redemption) {
    Offered(s.pool, s.pool.stakeWithdrawalFee, tokens, minimumOut, feeWaived, q)
  }

  // ---------------------------------------------------------------------------------------
  // When a stake withdrawal succeeds
  // ---------------------------------------------------------------------------------------

  /** The fair redemption is taken from account a, which belongs to entry i and whose turn it is. */
  ghost predicate Withdraws(s: State, i: nat, a: Address, tokens: nat, minimumOut: Option<nat>, feeWaived: bool,
                            q: Redemption, s': State) {
    && s.pool.lastUpdate == s.epoch && Countable(s.pool)
    && i < |s.validators| && OfferedAs(s, tokens, minimumOut, feeWaived, q)
    && TakesInTurn(s, i, a, q, s')
  }

  /**
   * A withdrawal from a stake account succeeds exactly if the pool is up to date, it is that account's turn
   * and the account, and the tokens in circulation, can bear the fair redemption; this is all that happens.
   */
  lemma AccountWithdrawalIff(s: State, a: Address, tokens: u64, minimumOut: Option<nat>, feeWaived: bool, s': State)
    requires Invariant(s)
    ensures WithdrawStake(s, Account(a), tokens, minimumOut, feeWaived) == Ok(s')
            <==> exists i, q :: Withdraws(s, i, a, tokens, minimumOut, feeWaived, q, s')
  {
    QuotedAndTaken(s, Account(a), tokens, minimumOut, feeWaived, s');
    if q :| s.pool.lastUpdate == s.epoch && OfferedAs(s, tokens, minimumOut, feeWaived, q)
            && TakenAs(s, Account(a), q, s') {
      var i := TakenFromAnEntry(s, a, q);
      EntryTakesInTurn(s, i, a, q, s');
      assert Withdraws(s, i, a, tokens, minimumOut, feeWaived, q, s');
    }
    forall i, q | Withdraws(s, i, a, tokens, minimumOut, feeWaived, q, s')
      ensures OfferedAs(s, tokens, minimumOut, feeWaived, q) && TakenAs(s, Account(a), q, s')
    {
      EntryTakesInTurn(s, i, a, q, s');
    }
  }

  /** A withdrawal of stake from the reserve succeeds exactly if no validator has stake to spare and it can pay. */
  lemma ReserveWithdrawalIff(s: State, tokens: u64, minimumOut: Option<nat>, feeWaived: bool, s': State)
    requires Invariant(s)
    ensures WithdrawStake(s, Reserve, tokens, minimumOut, feeWaived) == Ok(s')
            <==> s.pool.lastUpdate == s.epoch && Countable(s.pool)
                 && exists q :: OfferedAs(s, tokens, minimumOut, feeWaived, q) && ReservePays(s, q, s')
  {
    QuotedAndTaken(s, Reserve, tokens, minimumOut, feeWaived, s');
    if Countable(s.pool) {
      forall q
        ensures TakenAs(s, Reserve, q, s') <==> ReservePays(s, q, s')
      {
        ReserveTakenAs(s, q, s');
      }
    }
  }

  /** While some active validator has active stake to spare, nobody withdraws transient stake or from the reserve. */
  lemma ActiveStakeComesFirst(s: State, source: Source, tokens: u64, minimumOut: Option<nat>, feeWaived: bool,
                              s': State)
    requires Invariant(s) && Countable(s.pool)
    requires ActiveAbove(s, Limit(s, Max(s.chain.stakeRent, s.chain.reserveRent)))
    requires WithdrawStake(s, source, tokens, minimumOut, feeWaived) == Ok(s')
    ensures source.Account? && source.address.ValidatorStake?
    ensures s'.reserve == s.reserve
    ensures |s'.validators| == |s.validators|
    ensures forall k :: 0 <= k < |s.validators| ==> s'.validators[k].transient == s.validators[k].transient
                                                    && s'.validators[k].status == s.validators[k].status
  {
    if source.Reserve? {
      ReserveWithdrawalIff(s, tokens, minimumOut, feeWaived, s');
    } else {
      AccountWithdrawalIff(s, source.address, tokens, minimumOut, feeWaived, s');
      assert RegularAccount(s.accounts[source.address], s.chain.stakeRent, s.epoch);
    }
  }
}
