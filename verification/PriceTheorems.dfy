/** What the price arithmetic guarantees: no operation on it dilutes the remaining holders. */
module PriceTheorems {
  import opened Base
  import opened Pricing
  import opened Sums

  /** Moving from (total, supply) to (total', supply') does not lower the value of one token. */
  ghost predicate PriceKept(total: nat, supply: nat, total': nat, supply': nat) {
    total' * supply >= total * supply'
  }

  lemma PriceKeptTransitive(t0: nat, s0: nat, t1: nat, s1: nat, t2: nat, s2: nat)
    requires s1 > 0 || s2 == 0
    requires PriceKept(t0, s0, t1, s1) && PriceKept(t1, s1, t2, s2)
    ensures PriceKept(t0, s0, t2, s2)
  {
    if s1 > 0 {
      CrossMultiplied(t0, s0, t1, s1, t2, s2);
    }
  }

  lemma CrossMultiplied(t0: nat, s0: nat, t1: nat, s1: nat, t2: nat, s2: nat)
    requires s1 > 0
    requires t1 * s0 >= t0 * s1 && t2 * s1 >= t1 * s2
    ensures t2 * s0 >= t0 * s2
  {
    MulMono(t0 * s1, t1 * s0, s2);
    MulMono(t1 * s2, t2 * s1, s0);
    assert (t0 * s2) * s1 == (t0 * s1) * s2;
    assert (t1 * s0) * s2 == (t1 * s2) * s0;
    assert (t2 * s1) * s0 == (t2 * s0) * s1;
    CancelFactor(t0 * s2, t2 * s0, s1);
  }

  /** Fewer tokens for the same lamports are worth no less each. */
  lemma PriceKeptWithFewer(total: nat, supply: nat, total': nat, more: nat, supply': nat)
    requires supply' <= more && PriceKept(total, supply, total', more)
    ensures PriceKept(total, supply, total', supply')
  {
    MulMono(supply', more, total);
  }

  lemma DepositKeepsPrice(total: nat, supply: nat, lamports: nat, minted: nat)
    requires supply > 0
    requires TokensForDeposit(total, supply, lamports) == Some(minted)
    ensures PriceKept(total, supply, total + lamports, supply + minted)
  {
    if total > 0 {
      FloorBounds(lamports * supply, total);
      assert minted * total <= lamports * supply;
      assert (total + lamports) * supply == total * supply + lamports * supply;
      assert total * (supply + minted) == total * supply + minted * total;
    }
  }

  /** A redemption never pays more than its share, so also any smaller payment keeps the price. */
  lemma RedemptionIsItsShare(total: nat, supply: nat, tokens: nat, paid: nat)
    requires LamportsForWithdrawal(total, supply, tokens) == Some(paid)
    ensures paid * supply <= tokens * total
    ensures tokens <= supply ==> paid <= total
  {
    if paid > 0 {
      FloorBounds(tokens * total, supply);
      if tokens <= supply {
        MulMono(tokens, supply, total);
        CancelFactor(paid, total, supply);
      }
    }
  }

  lemma WithdrawalKeepsPrice(total: nat, supply: nat, tokens: nat, quoted: nat, paid: nat)
    requires tokens <= supply && paid <= quoted && paid <= total
    requires LamportsForWithdrawal(total, supply, tokens) == Some(quoted)
    ensures PriceKept(total, supply, total - paid, supply - tokens)
  {
    RedemptionIsItsShare(total, supply, tokens, quoted);
    MulMono(paid, quoted, supply);
    assert (total - paid) * supply == total * supply - paid * supply;
    assert total * (supply - tokens) == total * supply - tokens * total;
  }

  // ---------------------------------------------------------------------------------------
  // Fees
  // ---------------------------------------------------------------------------------------

  /** A rounded-up share is a share. */
  lemma CeilingShare(amount: nat, num: nat, den: nat, share: nat)
    requires num <= den && 0 < den && share == (amount * num + den - 1) / den
    ensures share <= amount && amount * num <= share * den
    ensures 0 < num && 0 < amount ==> 0 < share
  {
    var a := amount * num + den - 1;
    FloorBounds(a, den);
    MulMono(num, den, amount);
    assert (amount + 1) * den == amount * den + den;
    FloorAtMost(a, den, amount);
    if 0 < num && 0 < amount {
      MulMono(1, amount, num);
      FloorAtLeast(a, den, 1);
    }
  }

  /** A fee of at most one never overflows and never exceeds what it is charged on. */
  lemma ValidFeeIsAShare(fee: Fee, amount: nat)
    requires ValidFee(fee) && amount <= U64_MAX
    ensures ApplyFee(fee, amount).Some? && TokenFee(fee, amount).Some?
    ensures ApplyFee(fee, amount).value <= amount
    ensures ApplyFee(fee, amount).value * fee.denominator >= amount * fee.numerator
    ensures fee.numerator > 0 && amount > 0 ==> ApplyFee(fee, amount).value > 0
  {
    if fee.denominator > 0 {
      ProductBound(amount, fee.numerator);
      CeilingShare(amount, fee.numerator, fee.denominator, ApplyFee(fee, amount).value);
    }
  }

  /** Minting the epoch fee out of a reward keeps the price: rewards only ever raise it. */
  lemma EpochFeeKeepsPrice(total: nat, supply: nat, fee: Fee, reward: nat, minted: nat)
    requires ValidFee(fee) && supply > 0 && reward <= U64_MAX
    requires EpochFeeTokens(total, supply, fee, reward) == Some(minted)
    ensures PriceKept(total, supply, total + reward, supply + minted)
  {
    if reward > 0 {
      ValidFeeIsAShare(fee, reward);
      var charged := ApplyFee(fee, reward).value;
      if total + reward != charged {
        var rest := total + reward - charged;
        FloorBounds(supply * charged, rest);
        MulMono(total, rest, minted);
        MulMono(charged, reward, supply);
        assert minted * rest <= supply * charged;
        assert total * (supply + minted) == total * supply + total * minted;
        assert (total + reward) * supply == total * supply + reward * supply;
      }
    }
  }

  /** What a fee takes leaves the floor of the complementary share. */
  lemma NetOfFee(fee: Fee, amount: nat)
    requires ValidFee(fee) && fee.denominator > 0 && amount <= U64_MAX
    ensures TokenFee(fee, amount).Some? && TokenFee(fee, amount).value <= amount
    ensures amount - TokenFee(fee, amount).value == amount * (fee.denominator - fee.numerator) / fee.denominator
  {
    ValidFeeIsAShare(fee, amount);
    var den, num := fee.denominator, fee.numerator;
    var f := TokenFee(fee, amount).value;
    FloorBounds(amount * num + den - 1, den);
    assert amount * (den - num) == amount * den - amount * num;
    assert (amount - f) * den == amount * den - f * den;
    FloorUnique(amount * (den - num), den, amount - f);
  }

  // ---------------------------------------------------------------------------------------
  // Which amounts can be burnt once the fee is charged
  // ---------------------------------------------------------------------------------------

  /** Redeeming `amount` leaves `burnt` after the fee. */
  ghost predicate Leaves(fee: Fee, amount: nat, burnt: nat) {
    TokenFee(fee, amount).Some? && TokenFee(fee, amount).value + burnt == amount
  }

  /** Whether a holder of `limit` tokens can burn an amount: its share after the fee has to suffice. */
  predicate Reachable(fee: Fee, burnt: nat, limit: nat) {
    if fee.denominator == 0 then burnt <= limit
    else burnt * fee.denominator <= limit * (fee.denominator - fee.numerator)
  }

  /** What an amount leaves can be reached with that amount, or with more. */
  lemma LeftIsReachable(fee: Fee, amount: nat, burnt: nat, limit: nat)
    requires ValidFee(fee) && amount <= limit <= U64_MAX && Leaves(fee, amount, burnt)
    ensures Reachable(fee, burnt, limit)
  {
    if fee.denominator > 0 {
      NetOfFee(fee, amount);
      FloorBounds(amount * (fee.denominator - fee.numerator), fee.denominator);
      MulMono(amount, limit, fee.denominator - fee.numerator);
    }
  }

  lemma CeilingReaches(burnt: nat, den: nat, k: nat, limit: nat) returns (amount: nat)
    requires 0 < k <= den && burnt * den <= limit * k
    ensures amount <= limit && amount * k / den == burnt
  {
    amount := (burnt * den + k - 1) / k;
    FloorBounds(burnt * den + k - 1, k);
    FloorUnique(amount * k, den, burnt);
    assert (limit + 1) * k == limit * k + k;
    FloorAtMost(burnt * den + k - 1, k, limit);
  }

  lemma ReachableIsLeft(fee: Fee, burnt: nat, limit: nat) returns (amount: nat)
    requires ValidFee(fee) && limit <= U64_MAX && Reachable(fee, burnt, limit)
    ensures amount <= limit && Leaves(fee, amount, burnt)
  {
    if fee.denominator == 0 {
      amount := burnt;
    } else if fee.numerator == fee.denominator {
      MulMono(1, fee.denominator, burnt);
      amount := 0;
      NetOfFee(fee, 0);
    } else {
      amount := CeilingReaches(burnt, fee.denominator, fee.denominator - fee.numerator, limit);
      NetOfFee(fee, amount);
    }
  }

  /** A holder of `limit` tokens can burn an amount exactly when it is within the share the fee leaves. */
  lemma ReachedIff(fee: Fee, burnt: nat, limit: nat)
    requires ValidFee(fee) && limit <= U64_MAX
    ensures (exists amount: nat :: amount <= limit && Leaves(fee, amount, burnt)) <==> Reachable(fee, burnt, limit)
  {
    if Reachable(fee, burnt, limit) {
      var amount := ReachableIsLeft(fee, burnt, limit);
    }
    forall amount: nat | amount <= limit && Leaves(fee, amount, burnt)
      ensures Reachable(fee, burnt, limit)
    {
      LeftIsReachable(fee, amount, burnt, limit);
    }
  }

  /** Below a full fee, no u64 amount need leave a given burnt amount: here none leaves two tokens. */
  lemma NoAmountLeavesTwo()
    ensures var fee := Fee(U64_MAX, U64_MAX - 1);
            fee.numerator < fee.denominator && !exists amount: nat :: amount <= U64_MAX && Leaves(fee, amount, 2)
  {
    ReachedIff(Fee(U64_MAX, U64_MAX - 1), 2, U64_MAX);
  }

  /** At a fee of sixty percent not even the holder of the whole supply can burn half of it. */
  lemma HalfTheSupplyIsOutOfReach(half: nat)
    requires 0 < half && half * 2 <= U64_MAX
    ensures !exists amount: nat :: amount <= half * 2 && Leaves(Fee(5, 3), amount, half)
  {
    ReachedIff(Fee(5, 3), half, half * 2);
  }

  // ---------------------------------------------------------------------------------------
  // The epoch fee is tight
  // ---------------------------------------------------------------------------------------

  /** A redemption that can be computed pays the floor of the share. */
  lemma RedeemsFloor(total: nat, supply: nat, tokens: nat, value: nat)
    requires supply > 0 && LamportsForWithdrawal(total, supply, tokens) == Some(value)
    ensures value == tokens * total / supply
  {
    if tokens * total < supply {
      FloorUnique(tokens * total, supply, 0);
    }
  }

  lemma FeeBracket(supply: nat, charged: nat, minted: nat, grown: nat)
    requires supply > 0 && charged < grown
    requires minted == supply * charged / (grown - charged)
    ensures minted * grown <= charged * (supply + minted)
    ensures charged * (supply + minted) <= minted * grown + (grown - charged - 1)
  {
    FloorBounds(supply * charged, grown - charged);
    assert minted * (grown - charged) == minted * grown - minted * charged;
    assert charged * (supply + minted) == supply * charged + minted * charged;
  }

  lemma TightFee(supply: nat, charged: nat, minted: nat, grown: nat)
    requires supply > 0 && charged < grown
    requires minted == supply * charged / (grown - charged)
    ensures var value := minted * grown / (supply + minted);
            value <= charged
            && charged - value <= (grown - charged - 1 + supply + minted - 1) / (supply + minted)
  {
    FeeBracket(supply, charged, minted, grown);
    var all := supply + minted;
    var value := minted * grown / all;
    FloorBounds(minted * grown, all);
    assert (charged + 1) * all == charged * all + all;
    FloorAtMost(minted * grown, all, charged);
    assert (charged - value) * all == charged * all - value * all;
    FloorAtLeast(grown - charged - 1 + all - 1, all, charged - value);
  }

  /**
   * The pool was paid `reward` and minted `minted` fee tokens, which redeem for `value` afterwards. A
   * full fee on a pool without stake is the one case in which the program mints without dividing.
   */
  ghost predicate Charged(total: nat, supply: nat, fee: Fee, reward: nat, minted: nat, value: nat) {
    && ValidFee(fee) && supply > 0 && reward <= U64_MAX
    && EpochFeeTokens(total, supply, fee, reward) == Some(minted)
    && ApplyFee(fee, reward) != Some(total + reward)
    && LamportsForWithdrawal(total + reward, supply + minted, minted) == Some(value)
  }

  lemma NoRewardNoFee(fee: Fee)
    ensures ApplyFee(fee, 0) == Some(0)
  {
    if fee.denominator > 0 {
      ProductBound(0, 0);
      FloorUnique(fee.denominator - 1, fee.denominator, 0);
    }
  }

  /** The fee tokens are minted by the division, and redeem by one. */
  lemma ChargedDivides(total: nat, supply: nat, fee: Fee, reward: nat, minted: nat, value: nat)
    requires Charged(total, supply, fee, reward, minted, value)
    ensures ApplyFee(fee, reward).Some?
    ensures var charged := ApplyFee(fee, reward).value;
            && charged < total + reward
            && minted == supply * charged / (total + reward - charged)
            && value == minted * (total + reward) / (supply + minted)
  {
    ValidFeeIsAShare(fee, reward);
    RedeemsFloor(total + reward, supply + minted, minted, value);
    if reward == 0 {
      NoRewardNoFee(fee);
      FloorUnique(0, total, 0);
    }
  }

  /** The fee tokens redeem for at most the fee, and for no less than the ceiling allows. */
  lemma EpochFeeIsTight(total: nat, supply: nat, fee: Fee, reward: nat, minted: nat, value: nat)
    requires Charged(total, supply, fee, reward, minted, value)
    ensures ApplyFee(fee, reward).Some?
    ensures var charged := ApplyFee(fee, reward).value;
            && value <= charged < total + reward
            && charged - value <= (total + reward - charged - 1 + supply + minted - 1) / (supply + minted)
  {
    ChargedDivides(total, supply, fee, reward, minted, value);
    TightFee(supply, ApplyFee(fee, reward).value, minted, total + reward);
  }

  lemma WholeFee(supply: nat, charged: nat, minted: nat, grown: nat)
    requires supply > 0 && charged < grown
    requires minted == supply * charged / (grown - charged)
    ensures minted * grown / (supply + minted) == charged <==> supply * charged % (grown - charged) == 0
  {
    var rest, all := grown - charged, supply + minted;
    var r := supply * charged % rest;
    assert supply * charged == minted * rest + r;
    assert minted * grown == charged * all - r by {
      assert minted * rest == minted * grown - minted * charged;
      assert charged * all == supply * charged + minted * charged;
    }
    FloorBounds(minted * grown, all);
    if r == 0 {
      FloorUnique(minted * grown, all, charged);
    }
  }

  /** The fee tokens are worth the whole fee exactly when the minting division leaves no remainder. */
  lemma FeeValueIsWhole(total: nat, supply: nat, fee: Fee, reward: nat, minted: nat, value: nat)
    requires Charged(total, supply, fee, reward, minted, value)
    ensures ApplyFee(fee, reward).Some?
    ensures var charged := ApplyFee(fee, reward).value;
            && charged < total + reward
            && (value == charged <==> supply * charged % (total + reward - charged) == 0)
  {
    ChargedDivides(total, supply, fee, reward, minted, value);
    WholeFee(supply, ApplyFee(fee, reward).value, minted, total + reward);
  }

  /** What is at most the ceiling is at most the floor, unless it is a ceiling that was rounded up. */
  lemma FloorOrCeiling(a: nat, den: nat, ceiling: nat, value: nat)
    requires den > 0 && value <= ceiling == (a + den - 1) / den
    ensures value <= a / den <==> a % den == 0 || value != ceiling
  {
    var q := a / den;
    FloorBounds(a, den);
    assert a == q * den + a % den;
    assert (q + 1) * den == q * den + den;
    FloorUnique(a + den - 1, den, if a % den == 0 then q else q + 1);
  }

  /**
   * The unit test of the fee calculation states the bound with the floor of reward · fee. That
   * bound holds exactly when the fee ratio divides evenly or the minting division does not.
   */
  lemma FloorBoundHoldsIff(total: nat, supply: nat, fee: Fee, reward: nat, minted: nat, value: nat)
    requires Charged(total, supply, fee, reward, minted, value) && fee.denominator > 0
    ensures ApplyFee(fee, reward).Some?
    ensures var charged := ApplyFee(fee, reward).value;
            && charged < total + reward
            && (value <= reward * fee.numerator / fee.denominator
                <==> reward * fee.numerator % fee.denominator == 0
                     || supply * charged % (total + reward - charged) != 0)
  {
    EpochFeeIsTight(total, supply, fee, reward, minted, value);
    FeeValueIsWhole(total, supply, fee, reward, minted, value);
    CeilingOfFee(fee, reward, value);
  }

  /** The bound in terms of the charged fee alone. */
  lemma CeilingOfFee(fee: Fee, reward: nat, value: nat)
    requires fee.denominator > 0 && ApplyFee(fee, reward).Some? && value <= ApplyFee(fee, reward).value
    ensures value <= reward * fee.numerator / fee.denominator
            <==> reward * fee.numerator % fee.denominator == 0 || value != ApplyFee(fee, reward).value
  {
    FloorOrCeiling(reward * fee.numerator, fee.denominator, ApplyFee(fee, reward).value, value);
  }

  /** One lamport of reward at a fee of one half: the minted token redeems for a lamport, the floor is zero. */
  lemma FloorBoundFails()
    ensures EpochFeeTokens(1000, 1000, Fee(2, 1), 1) == Some(1)
    ensures LamportsForWithdrawal(1001, 1001, 1) == Some(1)
    ensures 1 > 1 * 1 / 2
  {
    assert ApplyFee(Fee(2, 1), 1) == Some(1);
  }

  // ---------------------------------------------------------------------------------------
  // Splitting a redemption
  // ---------------------------------------------------------------------------------------

  /** The lamports paid for redeeming the pieces one after the other. */
  function RedeemInTurn(total: nat, supply: nat, pieces: seq<nat>): nat
    requires total <= U64_MAX && Sum(pieces) <= supply <= U64_MAX
    ensures RedeemInTurn(total, supply, pieces) <= total
    decreases |pieces|
  {
    if pieces == [] then 0
    else
      RedeemFits(total, supply, pieces[0]);
      var paid := LamportsForWithdrawal(total, supply, pieces[0]).value;
      paid + RedeemInTurn(total - paid, supply - pieces[0], pieces[1..])
  }

  lemma RedeemFits(total: nat, supply: nat, tokens: nat)
    requires total <= U64_MAX && tokens <= supply <= U64_MAX
    ensures LamportsForWithdrawal(total, supply, tokens).Some?
    ensures LamportsForWithdrawal(total, supply, tokens).value <= total
    ensures supply > 0 ==> LamportsForWithdrawal(total, supply, tokens).value == tokens * total / supply
  {
    ProductBound(tokens, total);
    if supply > 0 {
      MulMono(tokens, supply, total);
      assert (total + 1) * supply == total * supply + supply;
      FloorAtMost(tokens * total, supply, total);
      if tokens * total < supply {
        FloorUnique(tokens * total, supply, 0);
      }
    }
  }

  /** However a redemption is split, the pool is left with at least the remaining holders' share. */
  lemma {:induction false} SplitKeepsPrice(total: nat, supply: nat, pieces: seq<nat>)
    requires total <= U64_MAX && Sum(pieces) <= supply <= U64_MAX
    ensures PriceKept(total, supply, total - RedeemInTurn(total, supply, pieces), supply - Sum(pieces))
    decreases |pieces|
  {
    if pieces != [] {
      var first, rest := pieces[0], pieces[1..];
      var paid := FirstPiece(total, supply, first);
      SplitKeepsPrice(total - paid, supply - first, rest);
      PriceKeptTransitive(total, supply, total - paid, supply - first,
                          total - paid - RedeemInTurn(total - paid, supply - first, rest), supply - first - Sum(rest));
    }
  }

  lemma FirstPiece(total: nat, supply: nat, tokens: nat) returns (paid: nat)
    requires total <= U64_MAX && tokens <= supply <= U64_MAX
    ensures LamportsForWithdrawal(total, supply, tokens) == Some(paid) && paid <= total
    ensures PriceKept(total, supply, total - paid, supply - tokens)
  {
    RedeemFits(total, supply, tokens);
    paid := LamportsForWithdrawal(total, supply, tokens).value;
    WithdrawalKeepsPrice(total, supply, tokens, paid, paid);
  }

  /** Splitting a redemption never pays more than redeeming the whole amount at once. */
  lemma SplittingNeverPays(total: nat, supply: nat, pieces: seq<nat>)
    requires total <= U64_MAX && Sum(pieces) <= supply <= U64_MAX
    ensures LamportsForWithdrawal(total, supply, Sum(pieces)).Some?
    ensures RedeemInTurn(total, supply, pieces)
            <= LamportsForWithdrawal(total, supply, Sum(pieces)).value
  {
    var tokens, paid := Sum(pieces), RedeemInTurn(total, supply, pieces);
    RedeemFits(total, supply, tokens);
    SplitKeepsPrice(total, supply, pieces);
    if supply > 0 {
      assert (total - paid) * supply == total * supply - paid * supply;
      assert total * (supply - tokens) == total * supply - tokens * total;
      FloorAtLeast(tokens * total, supply, paid);
    } else {
      NothingToRedeem(total, pieces);
    }
  }

  lemma {:induction false} NothingToRedeem(total: nat, pieces: seq<nat>)
    requires total <= U64_MAX && Sum(pieces) == 0
    ensures RedeemInTurn(total, 0, pieces) == 0
    decreases |pieces|
  {
    if pieces != [] {
      NothingToRedeem(total, pieces[1..]);
    }
  }

  /** Redeeming the whole supply, in whatever pieces, empties the pool to the last lamport. */
  lemma {:induction false} RedeemingAllEmptiesThePool(total: nat, supply: nat, pieces: seq<nat>)
    requires total <= U64_MAX && 0 < supply <= U64_MAX && Sum(pieces) == supply
    ensures RedeemInTurn(total, supply, pieces) == total
    decreases |pieces|
  {
    RedeemFits(total, supply, pieces[0]);
    var paid := LamportsForWithdrawal(total, supply, pieces[0]).value;
    if pieces[0] == supply {
      FloorUnique(supply * total, supply, total);
      NothingToRedeem(total - paid, pieces[1..]);
    } else {
      RedeemingAllEmptiesThePool(total - paid, supply - pieces[0], pieces[1..]);
    }
  }

  // ---------------------------------------------------------------------------------------
  // Withdrawing a whole account
  // ---------------------------------------------------------------------------------------

  /** For every account balance some burnt amount redeems into the accepted window above it. */
  lemma WholeAccountIsHittable(total: nat, supply: nat, balance: nat) returns (tokens: nat)
    requires balance <= total && 0 < total && 0 < supply && total + supply <= U64_MAX
    ensures tokens <= supply
    ensures LamportsPerToken(total, supply).Some?
    ensures LamportsForWithdrawal(total, supply, tokens).Some?
    ensures balance <= LamportsForWithdrawal(total, supply, tokens).value
                    <= balance + LamportsPerToken(total, supply).value
  {
    tokens := (balance * supply + total - 1) / total;
    CeilingHits(total, supply, balance, tokens, (total + supply - 1) / supply);
    RedeemFits(total, supply, tokens);
  }

  /** The tokens a balance needs, bracketed without a division. */
  lemma CeilingBracket(total: nat, need: nat, tokens: nat)
    requires 0 < total && tokens == (need + total - 1) / total
    ensures need <= tokens * total < need + total
  {
    FloorBounds(need + total - 1, total);
  }

  lemma CeilingWithinSupply(total: nat, supply: nat, balance: nat, tokens: nat)
    requires balance <= total && 0 < total && tokens == (balance * supply + total - 1) / total
    ensures tokens <= supply
  {
    MulMono(balance, total, supply);
    assert (supply + 1) * total == supply * total + total;
    FloorAtMost(balance * supply + total - 1, total, supply);
  }

  lemma HitsBelow(supply: nat, balance: nat, paid: nat)
    requires 0 < supply && balance * supply <= paid
    ensures balance <= paid / supply
  {
    FloorAtLeast(paid, supply, balance);
  }

  lemma HitsAbove(total: nat, supply: nat, balance: nat, paid: nat, perToken: nat)
    requires 0 < supply && paid < balance * supply + total && perToken == (total + supply - 1) / supply
    ensures paid / supply <= balance + perToken
  {
    FloorBounds(total + supply - 1, supply);
    assert (balance + perToken + 1) * supply == balance * supply + perToken * supply + supply;
    FloorAtMost(paid, supply, balance + perToken);
  }

  lemma CeilingHits(total: nat, supply: nat, balance: nat, tokens: nat, perToken: nat)
    requires balance <= total && 0 < total && 0 < supply
    requires tokens == (balance * supply + total - 1) / total
    requires perToken == (total + supply - 1) / supply
    ensures tokens <= supply
    ensures balance <= tokens * total / supply <= balance + perToken
  {
    CeilingBracket(total, balance * supply, tokens);
    CeilingWithinSupply(total, supply, balance, tokens);
    HitsBelow(supply, balance, tokens * total);
    HitsAbove(total, supply, balance, tokens * total, perToken);
  }
}
