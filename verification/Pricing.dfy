/** The integer price arithmetic of a stake pool: deposits, redemptions and fees in u64/u128. */
module Pricing {
  import opened Base

  /** A fee ratio; it charges nothing when the numerator or the denominator is zero. */
  datatype Fee = Fee(denominator: u64, numerator: u64)

  /** A fee of at most one. */
  predicate ValidFee(fee: Fee) {
    fee.numerator <= fee.denominator
  }

  /** `u64::try_from((a as u128).checked_mul(b)?.checked_div(c)?).ok()` */
  function MulDiv(a: nat, b: nat, c: nat): Option<nat> {
    if a * b > U128_MAX || c == 0 then None
    else if a * b / c > U64_MAX then None
    else Some(a * b / c)
  }

  /** Pool tokens minted for `lamports`, in a pool of `total` lamports and `supply` tokens. */
  function TokensForDeposit(total: nat, supply: nat, lamports: nat): Option<nat> {
    if total == 0 || supply == 0 then Some(lamports) else MulDiv(lamports, supply, total)
  }

  /** Lamports paid out for burning `tokens`. */
  function LamportsForWithdrawal(total: nat, supply: nat, tokens: nat): Option<nat> {
    if tokens * total > U128_MAX then None
    else if tokens * total < supply || supply == 0 then Some(0)
    else MulDiv(tokens, total, supply)
  }

  /** The fee on `amount`, rounded up; `None` on u128 overflow. */
  function ApplyFee(fee: Fee, amount: nat): Option<nat> {
    if fee.denominator == 0 then Some(0)
    else if amount * fee.numerator + fee.denominator > U128_MAX then None
    else Some((amount * fee.numerator + fee.denominator - 1) / fee.denominator)
  }

  /** A fee charged in pool tokens, which has to fit u64 again. */
  function TokenFee(fee: Fee, tokens: nat): Option<nat> {
    match ApplyFee(fee, tokens)
    case Some(f) => if f <= U64_MAX then Some(f) else None
    case None => None
  }

  /** The referrer's share, a percentage of a deposit fee. */
  function ReferralFee(percent: nat, fee: nat): Option<nat> {
    MulDiv(fee, percent, 100)
  }

  /** Pool tokens minted to the manager for `reward` lamports that `total` does not include yet. */
  function EpochFeeTokens(total: nat, supply: nat, fee: Fee, reward: nat): Option<nat> {
    if reward == 0 then Some(0)
    else
      match ApplyFee(fee, reward)
      case None => None
      case Some(charged) =>
        if total + reward == charged || supply == 0 then Some(reward)
        else if total + reward < charged then None
        else MulDiv(supply, charged, total + reward - charged)
  }

  /** The value of one pool token, rounded up. */
  function LamportsPerToken(total: nat, supply: nat): Option<nat> {
    if supply == 0 || total + supply > U64_MAX then None
    else Some((total + supply - 1) / supply)
  }

  // ---------------------------------------------------------------------------------------
  // Floor and ceiling division
  // ---------------------------------------------------------------------------------------

  lemma FloorBounds(a: int, c: int)
    requires c > 0
    ensures (a / c) * c <= a < (a / c) * c + c
  {
  }

  /** `q` is the floor of `a / c` as soon as it brackets it. */
  lemma FloorUnique(a: int, c: int, q: int)
    requires c > 0
    requires q * c <= a < q * c + c
    ensures a / c == q
  {
    FloorBounds(a, c);
    var d := a / c;
    if d < q {
      MulMono(d + 1, q, c);
    } else if d > q {
      MulMono(q + 1, d, c);
    }
  }

  lemma FloorAtLeast(a: int, c: int, q: int)
    requires c > 0
    requires q * c <= a
    ensures q <= a / c
  {
    FloorBounds(a, c);
    var d := a / c;
    if d < q {
      MulMono(d + 1, q, c);
    }
  }

  lemma FloorAtMost(a: int, c: int, q: int)
    requires c > 0
    requires a < (q + 1) * c
    ensures a / c <= q
  {
    FloorBounds(a, c);
    var d := a / c;
    if d > q {
      MulMono(q + 1, d, c);
    }
  }

  lemma CancelFactor(a: int, b: int, c: int)
    requires c > 0
    requires a * c <= b * c
    ensures a <= b
  {
    if a > b {
      MulMono(b + 1, a, c);
    }
  }

  lemma MulMono(a: int, b: int, c: int)
    requires a <= b && 0 <= c
    ensures a * c <= b * c
  {
  }

  lemma ProductBound(a: nat, b: nat)
    requires a <= U64_MAX && b <= U64_MAX
    ensures a * b <= U64_MAX * U64_MAX && a * b + U64_MAX <= U128_MAX
  {
    MulMono(a, U64_MAX, b);
    MulMono(b, U64_MAX, U64_MAX);
  }
}
