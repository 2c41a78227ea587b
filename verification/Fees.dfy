/** Fee changes: the withdrawal-fee limit, the two-epoch countdown and how far fees can grow. */
module Fees {
  import opened Base
  import opened Pricing

  const WITHDRAWAL_BASELINE_FEE := Fee(1000, 1)
  const TWO_63: nat := 0x8000_0000_0000_0000

  /** A value that counts down two epoch boundaries before it is used. */
  datatype FutureEpoch<+T> = Nothing | One(value: T) | Two(value: T) {
    function Advance(): FutureEpoch<T> {
      match this
      case Nothing => Nothing
      case One(_) => Nothing
      case Two(v) => One(v)
    }
  }

  datatype FeeType =
    | SolReferral(percent: nat)
    | StakeReferral(percent: nat)
    | EpochReward(fee: Fee)
    | StakeWithdrawal(fee: Fee)
    | SolWithdrawal(fee: Fee)
    | SolDeposit(fee: Fee)
    | StakeDeposit(fee: Fee)
  {
    predicate TooHigh() {
      if SolReferral? || StakeReferral? then percent > 100
      else fee.numerator > fee.denominator
    }

    predicate OnlyNextEpoch() {
      EpochReward? || StakeWithdrawal? || SolWithdrawal?
    }
  }

  // ---------------------------------------------------------------------------------------
  // The limit on withdrawal fees
  // ---------------------------------------------------------------------------------------

  /** The fee an increase is measured against: the baseline when there is no fee yet. */
  function Reference(prior: Fee): Fee {
    if prior.denominator == 0 || prior.numerator == 0 then WITHDRAWAL_BASELINE_FEE else prior
  }

  function FitsU128(n: nat): Option<nat> {
    if n <= U128_MAX then Some(n) else None
  }

  /** The order of `Option<u128>`: nothing is below everything. */
  predicate Below(a: Option<nat>, b: Option<nat>) {
    match (a, b)
    case (None, None) => false
    case (None, Some(_)) => true
    case (Some(_), None) => false
    case (Some(x), Some(y)) => x < y
  }

  /** The acceptance test of a new withdrawal fee, overflow of the last multiplication included. */
  function CheckWithdrawal(prior: Fee, fee: Fee): Outcome {
    var reference := Reference(prior);
    if reference.numerator * fee.denominator > U128_MAX then Fail(CalculationFailure)
    else if fee.numerator * reference.denominator > U128_MAX then Fail(CalculationFailure)
    else
      Check(!Below(FitsU128(reference.numerator * fee.denominator * 3),
                   FitsU128(fee.numerator * reference.denominator * 2)), FeeIncreaseTooHigh)
  }

  /** What the test is for: the new fee is at most 3/2 of the reference. */
  ghost predicate WithinLimit(prior: Fee, fee: Fee) {
    fee.numerator * Reference(prior).denominator * 2 <= Reference(prior).numerator * fee.denominator * 3
  }

  // What the test computes on plain numbers: n/d is the new fee, rn/rd the reference.

  lemma ProductsFit(n: nat, d: nat, rn: nat, rd: nat)
    requires n <= U64_MAX && d <= U64_MAX && rn <= U64_MAX && rd <= U64_MAX
    ensures rn * d <= U128_MAX && n * rd <= U128_MAX
  {
    ProductBound(rn, d);
    ProductBound(n, rd);
  }

  /** The test in arithmetic: an overflow of the right product, or neither overflows and the fee is within the limit. */
  ghost predicate Passes(prior: Fee, fee: Fee) {
    || fee.numerator * Reference(prior).denominator * 2 > U128_MAX
    || (Reference(prior).numerator * fee.denominator * 3 <= U128_MAX && WithinLimit(prior, fee))
  }

  lemma CheckIsExactly(prior: Fee, fee: Fee)
    ensures CheckWithdrawal(prior, fee).Pass? <==> Passes(prior, fee)
    ensures CheckWithdrawal(prior, fee).Fail? ==> CheckWithdrawal(prior, fee) == Fail(FeeIncreaseTooHigh)
  {
    ProductsFit(fee.numerator, fee.denominator, Reference(prior).numerator, Reference(prior).denominator);
  }

  lemma DoubleFits(n: nat, rd: nat)
    requires n <= U64_MAX && rd <= TWO_63
    ensures n * rd * 2 <= U128_MAX
  {
    MulMono(rd, TWO_63, n);
    MulMono(n, U64_MAX, TWO_63);
  }

  lemma TripleFits(rn: nat, d: nat)
    requires d <= U64_MAX && rn * 3 <= U64_MAX + 2
    ensures rn * d * 3 <= U128_MAX
  {
    MulMono(rn * 3, U64_MAX + 2, d);
    MulMono(d, U64_MAX, U64_MAX + 2);
    assert rn * d * 3 == (rn * 3) * d;
  }

  lemma FullFeeWithin(n: nat, d: nat, rn: nat, rd: nat)
    requires n <= d && rd * 2 <= rn * 3
    ensures n * rd * 2 <= rn * d * 3
  {
    MulMono(n, d, rd * 2);
    MulMono(rd * 2, rn * 3, d);
    assert n * rd * 2 == n * (rd * 2);
    assert rn * d * 3 == (rn * 3) * d;
  }

  // It accepts too much: an overflow of the right product.

  ghost predicate AcceptsOnlyWithinLimit(prior: Fee) {
    forall fee | ValidFee(fee) && CheckWithdrawal(prior, fee).Pass? :: WithinLimit(prior, fee)
  }

  /** The current fees for which no overflow can let an excessive fee through. */
  ghost predicate Checkable(prior: Fee) {
    Reference(prior).denominator <= TWO_63 || Reference(prior).denominator * 2 <= Reference(prior).numerator * 3
  }

  lemma AcceptedIsWithinLimit(prior: Fee, fee: Fee)
    requires Checkable(prior) && ValidFee(fee) && CheckWithdrawal(prior, fee).Pass?
    ensures WithinLimit(prior, fee)
  {
    var reference := Reference(prior);
    CheckIsExactly(prior, fee);
    if reference.denominator <= TWO_63 {
      DoubleFits(fee.numerator, reference.denominator);
    } else {
      FullFeeWithin(fee.numerator, fee.denominator, reference.numerator, reference.denominator);
    }
  }

  /** A full fee that overflows the comparison and so passes from any other current fee. */
  lemma OverflowPasses(prior: Fee)
    requires !Checkable(prior)
    ensures ValidFee(Fee(U64_MAX, U64_MAX))
    ensures CheckWithdrawal(prior, Fee(U64_MAX, U64_MAX)).Pass?
    ensures !WithinLimit(prior, Fee(U64_MAX, U64_MAX))
  {
    CheckIsExactly(prior, Fee(U64_MAX, U64_MAX));
  }

  /**
   * The test accepts only fees within the limit exactly when the current fee's denominator is at
   * most 2^63 or the current fee is already two thirds or more.
   */
  lemma CheckIsSoundIff(prior: Fee)
    ensures AcceptsOnlyWithinLimit(prior) <==> Checkable(prior)
  {
    if Checkable(prior) {
      forall fee | ValidFee(fee) && CheckWithdrawal(prior, fee).Pass?
        ensures WithinLimit(prior, fee)
      {
        AcceptedIsWithinLimit(prior, fee);
      }
    } else {
      OverflowPasses(prior);
    }
  }

  // It accepts too little: an overflow of the left product.

  ghost predicate AcceptsAllWithinLimit(prior: Fee) {
    forall fee | ValidFee(fee) && WithinLimit(prior, fee) :: CheckWithdrawal(prior, fee).Pass?
  }

  /** Even giving up the fee is refused, as an increase, when it is written with a large denominator. */
  lemma RefusesNoFee(prior: Fee)
    requires Reference(prior).numerator * 3 > U64_MAX + 2
    ensures ValidFee(Fee(U64_MAX, 0)) && WithinLimit(prior, Fee(U64_MAX, 0))
    ensures CheckWithdrawal(prior, Fee(U64_MAX, 0)) == Fail(FeeIncreaseTooHigh)
  {
    CheckIsExactly(prior, Fee(U64_MAX, 0));
    MulMono(U64_MAX + 3, Reference(prior).numerator * 3, U64_MAX);
    assert Reference(prior).numerator * U64_MAX * 3 == Reference(prior).numerator * 3 * U64_MAX;
  }

  /** The test accepts every fee within the limit exactly when the current numerator is at most (2^64 + 1) / 3. */
  lemma CheckIsCompleteIff(prior: Fee)
    ensures AcceptsAllWithinLimit(prior) <==> Reference(prior).numerator * 3 <= U64_MAX + 2
  {
    if Reference(prior).numerator * 3 <= U64_MAX + 2 {
      forall fee | ValidFee(fee) && WithinLimit(prior, fee)
        ensures CheckWithdrawal(prior, fee).Pass?
      {
        CheckIsExactly(prior, fee);
        TripleFits(Reference(prior).numerator, fee.denominator);
      }
    } else {
      RefusesNoFee(prior);
    }
  }

  /** From a full fee down to almost none, refused as an increase. */
  lemma DecreaseRefused()
    ensures CheckWithdrawal(Fee(U64_MAX, U64_MAX), Fee(U64_MAX, 1)) == Fail(FeeIncreaseTooHigh)
    ensures WithinLimit(Fee(U64_MAX, U64_MAX), Fee(U64_MAX, 1))
  {
    CheckIsExactly(Fee(U64_MAX, U64_MAX), Fee(U64_MAX, 1));
  }

  /** With denominators up to 2^63 the test is exact in both directions. */
  lemma CheckIsExact(prior: Fee, fee: Fee)
    requires ValidFee(prior) && ValidFee(fee)
    requires prior.denominator <= TWO_63 && fee.denominator <= TWO_63
    ensures CheckWithdrawal(prior, fee).Pass? <==> WithinLimit(prior, fee)
  {
    var reference := Reference(prior);
    CheckIsExactly(prior, fee);
    DoubleFits(fee.numerator, reference.denominator);
    MulMono(reference.numerator, TWO_63, fee.denominator);
    MulMono(fee.denominator, TWO_63, TWO_63);
  }

  // ---------------------------------------------------------------------------------------
  // Growth of a scheduled fee
  // ---------------------------------------------------------------------------------------

  /** A withdrawal fee together with its pending change. */
  datatype Schedule = Schedule(current: Fee, next: FutureEpoch<Fee>) {
    function Advance(): Schedule {
      Schedule(if next.One? then next.value else current, next.Advance())
    }
  }

  ghost predicate ValidSchedule(s: Schedule) {
    ValidFee(s.current) && (s.next != Nothing ==> ValidFee(s.next.value))
  }

  ghost predicate Accepted(s: Schedule, fee: Fee) {
    ValidFee(fee) && CheckWithdrawal(s.current, fee).Pass?
  }

  /** One step of a schedule: an epoch boundary, an accepted change, or nothing. */
  ghost predicate ScheduleStep(a: Schedule, b: Schedule, boundary: bool) {
    if boundary then b == a.Advance()
    else b == a || (b.current == a.current && b.next.Two? && Accepted(a, b.next.value))
  }

  ghost function Rate(fee: Fee): real {
    if fee.denominator == 0 || fee.numerator == 0 then 0.0
    else fee.numerator as real / fee.denominator as real
  }

  ghost function AtLeastBaseline(rate: real): real {
    if rate < 0.001 then 0.001 else rate
  }

  /** `base` · (3/2)^n */
  ghost function Grown(base: real, n: nat): real {
    if n == 0 then base else 1.5 * Grown(base, n - 1)
  }

  lemma {:induction false} GrownMono(base: real, m: nat, n: nat)
    requires base >= 0.0 && m <= n
    ensures 0.0 <= Grown(base, m) <= Grown(base, n)
    decreases n
  {
    if n > 0 {
      GrownMono(base, if m < n then m else n - 1, n - 1);
    }
  }

  lemma Expand(n: real, d: real, k: real)
    requires d > 0.0
    ensures n / d * (d * k) == n * k
  {
    var x := n / d;
    assert x * d == n;
    assert x * (d * k) == (x * d) * k;
  }

  lemma CancelReal(a: real, b: real, p: real)
    requires p > 0.0 && a * p <= b * p
    ensures a <= b
  {
    assert (b - a) * p == b * p - a * p;
  }

  lemma RateFromProducts(n: nat, d: nat, rn: nat, rd: nat)
    requires d > 0 && rd > 0
    requires n * rd * 2 <= rn * d * 3
    ensures n as real / d as real <= 1.5 * (rn as real / rd as real)
  {
    var n', d', rn', rd' := n as real, d as real, rn as real, rd as real;
    var x, y, p := n' / d', rn' / rd', d' * rd';
    Expand(n', d', rd');
    Expand(rn', rd', d');
    assert rd' * d' == p;
    RealProducts(n, rd, 2);
    RealProducts(rn, d, 3);
    assert 1.5 * y * p == 1.5 * (y * p);
    CancelReal(x, 1.5 * y, p);
  }

  lemma RealProducts(a: nat, b: nat, c: nat)
    ensures (a * b * c) as real == a as real * b as real * c as real
  {
  }

  /** An accepted change raises the rate, floored at the baseline, by at most one half. */
  lemma AcceptedRate(prior: Fee, fee: Fee)
    requires ValidFee(prior) && ValidFee(fee) && WithinLimit(prior, fee)
    ensures Rate(fee) <= 1.5 * AtLeastBaseline(Rate(prior))
  {
    if fee.denominator > 0 {
      var reference := Reference(prior);
      RateFromProducts(fee.numerator, fee.denominator, reference.numerator, reference.denominator);
      if reference == prior {
        assert Rate(prior) == prior.numerator as real / prior.denominator as real;
      } else {
        assert 1 as real / 1000 as real == 0.001;
        assert Rate(prior) == 0.0;
      }
    }
  }

  /** How many epoch boundaries of a run, up to state i, were crossed. */
  ghost function Boundaries(crossed: seq<bool>, i: nat): nat
    requires i <= |crossed|
  {
    if i == 0 then 0 else Boundaries(crossed, i - 1) + if crossed[i - 1] then 1 else 0
  }

  /** A step that, if it accepts a change, does so from a current fee for which the test is sound. */
  ghost predicate SoundStep(a: Schedule, b: Schedule, crossed: bool) {
    ScheduleStep(a, b, crossed) && (crossed || b == a || Checkable(a.current))
  }

  ghost predicate ScheduleRun(run: seq<Schedule>, crossed: seq<bool>) {
    && |run| == |crossed| + 1
    && (forall i :: 0 <= i < |run| ==> ValidSchedule(run[i]))
    && (forall i :: 0 <= i < |crossed| ==> SoundStep(run[i], run[i + 1], crossed[i]))
  }

  /** Boundaries that count towards the growth: the last one is still owed while a change has one to go. */
  ghost function Settled(s: Schedule, n: nat): nat {
    if s.next.One? && n > 0 then (n - 1) / 2 else n / 2
  }

  ghost predicate GrowthInvariant(s: Schedule, base: real, n: nat) {
    && (s.next.One? ==> n > 0)
    && AtLeastBaseline(Rate(s.current)) <= Grown(base, Settled(s, n))
    && (s.next != Nothing ==> Rate(s.next.value) <= 1.5 * AtLeastBaseline(Rate(s.current)))
  }

  lemma GrowthStep(a: Schedule, b: Schedule, crossed: bool, base: real, n: nat)
    requires ValidSchedule(a) && ValidSchedule(b) && base >= 0.001
    requires GrowthInvariant(a, base, n) && SoundStep(a, b, crossed)
    ensures GrowthInvariant(b, base, if crossed then n + 1 else n)
  {
    var n' := if crossed then n + 1 else n;
    if crossed && a.next.One? {
      assert (n - 1) / 2 + 1 == n' / 2;
      GrownMono(base, 0, n' / 2);
    } else {
      GrownMono(base, Settled(a, n), Settled(b, n'));
    }
    if !crossed && b != a {
      AcceptedIsWithinLimit(a.current, b.next.value);
      AcceptedRate(a.current, b.next.value);
    }
  }

  /** The growth bound over every run that starts with nothing pending. */
  lemma {:induction false} ScheduleGrowth(run: seq<Schedule>, crossed: seq<bool>, i: nat)
    requires ScheduleRun(run, crossed) && i <= |crossed|
    requires run[0].next == Nothing
    ensures var base := AtLeastBaseline(Rate(run[0].current));
            GrowthInvariant(run[i], base, Boundaries(crossed, i))
            && Rate(run[i].current) <= Grown(base, Boundaries(crossed, i) / 2)
  {
    var base := AtLeastBaseline(Rate(run[0].current));
    if i > 0 {
      ScheduleGrowth(run, crossed, i - 1);
      GrowthStep(run[i - 1], run[i], crossed[i - 1], base, Boundaries(crossed, i - 1));
    }
    var n := Boundaries(crossed, i);
    GrownMono(base, Settled(run[i], n), n / 2);
  }
}
