/** Fees over whole runs: deposits that always split, changes that wait, and bounded growth. */
module FeeRuns {
  import opened Base
  import opened Pricing
  import opened PriceTheorems
  import opened Fees
  import opened World
  import opened Accounting
  import opened Handlers
  import opened Steps

  // ---------------------------------------------------------------------------------------
  // Deposits split without a remainder
  // ---------------------------------------------------------------------------------------

  /** The only ways a quote can fail once the tokens are priced. */
  ghost predicate Splits(q: Result<Minted>, tokens: nat) {
    match q
    case Ok(m) => m.total == tokens && m.user + m.manager + m.referrer == tokens && 0 < m.user
    case Err(error) => error == DepositTooSmall || error == ExceededSlippage
  }

  lemma SplitSplits(tokens: nat, fee: nat, referral: nat, minimumOut: Option<nat>)
    requires fee <= tokens <= U64_MAX && referral <= 100
    ensures Splits(SplitDeposit(tokens, fee, referral, minimumOut), tokens)
  {
    ProductBound(fee, referral);
    MulMono(referral, 100, fee);
    FloorAtMost(fee * referral, 100, fee);
  }

  lemma PricedFits(total: nat, supply: nat, lamports: u64, tokens: nat)
    requires TokensForDeposit(total, supply, lamports) == Some(tokens)
    ensures tokens <= U64_MAX
  {
  }

  /** With valid fees no subtraction of the split can fail and every minted token has a recipient. */
  lemma SolDepositSplits(p: Pool, lamports: u64, minimumOut: Option<nat>, tokens: nat)
    requires ValidFees(p) && TokensForDeposit(p.totalLamports, p.tokenSupply, lamports) == Some(tokens)
    ensures Splits(QuoteSolDeposit(p, lamports, minimumOut), tokens)
  {
    PricedFits(p.totalLamports, p.tokenSupply, lamports, tokens);
    ValidFeeIsAShare(p.solDepositFee, tokens);
    SplitSplits(tokens, TokenFee(p.solDepositFee, tokens).value, p.solReferralFee, minimumOut);
  }

  lemma PartIsPricedLower(total: nat, supply: nat, lamports: u64, part: u64, tokens: nat)
    requires part <= lamports && TokensForDeposit(total, supply, lamports) == Some(tokens)
    ensures TokensForDeposit(total, supply, part).Some? && TokensForDeposit(total, supply, part).value <= tokens
  {
    if total != 0 && supply != 0 {
      MulMono(part, lamports, supply);
      FloorBounds(part * supply, total);
      FloorAtLeast(lamports * supply, total, part * supply / total);
    }
  }

  lemma TwoFees(stakeFee: Fee, solFee: Fee, fromStake: nat, fromSol: nat) returns (fee: nat)
    requires ValidFee(stakeFee) && ValidFee(solFee) && fromStake + fromSol <= U64_MAX
    ensures TokenFee(stakeFee, fromStake).Some? && TokenFee(solFee, fromSol).Some?
    ensures fee == TokenFee(stakeFee, fromStake).value + TokenFee(solFee, fromSol).value <= fromStake + fromSol
  {
    ValidFeeIsAShare(stakeFee, fromStake);
    ValidFeeIsAShare(solFee, fromSol);
    fee := TokenFee(stakeFee, fromStake).value + TokenFee(solFee, fromSol).value;
  }

  /** The same for a stake deposit, which pays two different fees. */
  lemma StakeDepositSplits(p: Pool, lamports: u64, delegated: u64, minimumOut: Option<nat>, tokens: nat)
    requires ValidFees(p) && delegated <= lamports
    requires TokensForDeposit(p.totalLamports, p.tokenSupply, lamports) == Some(tokens)
    ensures Splits(QuoteStakeDeposit(p, lamports, delegated, minimumOut), tokens)
  {
    PricedFits(p.totalLamports, p.tokenSupply, lamports, tokens);
    PartIsPricedLower(p.totalLamports, p.tokenSupply, lamports, delegated, tokens);
    var fromStake := TokensForDeposit(p.totalLamports, p.tokenSupply, delegated).value;
    var fee := TwoFees(p.stakeDepositFee, p.solDepositFee, fromStake, tokens - fromStake);
    SplitSplits(tokens, fee, p.stakeReferralFee, minimumOut);
  }

  // ---------------------------------------------------------------------------------------
  // The recorded supply
  // ---------------------------------------------------------------------------------------

  /** How far the recorded supply is ahead of the mint's. */
  ghost function Unrecorded(s: State): int {
    s.pool.tokenSupply - s.mintSupply
  }

  /** An instruction mints and burns exactly what it records, and a balance update records what was minted. */
  lemma InstructionRecordsSupply(s: State, op: Instruction, s': State)
    requires Apply(s, op) == Ok(s')
    ensures Unrecorded(s') == if op.InUpdateBalance? then 0 else Unrecorded(s)
  {
    match op
    case InWithdrawStake(source, tokens, minimumOut, feeWaived) =>
      var _, _ := WithdrawStakeDebits(s, source, tokens, minimumOut, feeWaived, s');
    case InDepositStake(vote, lamports, delegated, minimumOut) =>
      var _, _ := DepositStakeEffect(s, vote, lamports, delegated, minimumOut, s');
    case InDepositSol(_, _) =>
    case InWithdrawSol(_, _, _) =>
    case InUpdateBalance(_) =>
    case _ => InstructionFrame(s, op, s');
  }

  /** What a step of a run was. */
  datatype Event = Did(op: Instruction) | Failed | Boundary | Deactivation | Burnt(tokens: nat)

  ghost predicate Explains(event: Event, s: State, s': State) {
    match event
    case Did(op) => Apply(s, op) == Ok(s')
    case Failed => s' == s
    case Boundary => EpochBoundary(s, s')
    case Deactivation => ForcedDeactivation(s, s')
    case Burnt(tokens) => OutsideBurn(s, s') && s'.mintSupply == s.mintSupply - tokens
  }

  /** Every step of a run can be explained. */
  lemma StepIsExplained(s: State, s': State) returns (event: Event)
    requires Step(s, s')
    ensures Explains(event, s, s')
  {
    if s' == s {
      event := Failed;
    } else if op :| Apply(s, op) == Ok(s') {
      event := Did(op);
    } else if EpochBoundary(s, s') {
      event := Boundary;
    } else if ForcedDeactivation(s, s') {
      event := Deactivation;
    } else {
      event := Burnt(s.mintSupply - s'.mintSupply);
    }
  }

  ghost predicate Explained(run: seq<State>, events: seq<Event>) {
    |run| == |events| + 1 && forall i :: 0 <= i < |events| ==> ExplainedAt(run, events, i)
  }

  ghost predicate ExplainedAt(run: seq<State>, events: seq<Event>, i: nat)
    requires i < |events| && |run| == |events| + 1
  {
    Explains(events[i], run[i], run[i + 1])
  }

  /** The tokens holders burnt on their own since the last balance update, on top of `before`. */
  ghost function BurntSince(before: int, events: seq<Event>, i: nat): int
    requires i <= |events|
  {
    if i == 0 then before
    else
      match events[i - 1]
      case Did(op) => if op.InUpdateBalance? then 0 else BurntSince(before, events, i - 1)
      case Burnt(tokens) => BurntSince(before, events, i - 1) + tokens
      case _ => BurntSince(before, events, i - 1)
  }

  lemma EventMovesGap(event: Event, s: State, s': State)
    requires Explains(event, s, s')
    ensures Unrecorded(s') == match event
                              case Did(op) => if op.InUpdateBalance? then 0 else Unrecorded(s)
                              case Burnt(tokens) => Unrecorded(s) + tokens
                              case _ => Unrecorded(s)
  {
    if event.Did? {
      InstructionRecordsSupply(s, event.op, s');
    }
  }

  /** The recorded supply exceeds the mint's by exactly what holders burnt since the last balance update. */
  lemma {:induction false} SupplyGap(run: seq<State>, events: seq<Event>, i: nat)
    requires Explained(run, events) && i <= |events|
    ensures Unrecorded(run[i]) == BurntSince(Unrecorded(run[0]), events, i)
  {
    if i > 0 {
      SupplyGap(run, events, i - 1);
      assert ExplainedAt(run, events, i - 1);
      EventMovesGap(events[i - 1], run[i - 1], run[i]);
    }
  }

  // ---------------------------------------------------------------------------------------
  // Fees that change with the epoch as schedules
  // ---------------------------------------------------------------------------------------

  /** The fees whose changes wait. */
  datatype TimedFee = OnStakeWithdrawal | OnSolWithdrawal | OnRewards

  ghost function ScheduleOf(s: State, kind: TimedFee): Schedule {
    match kind
    case OnStakeWithdrawal => Schedule(s.pool.stakeWithdrawalFee, s.pool.nextStakeWithdrawalFee)
    case OnSolWithdrawal => Schedule(s.pool.solWithdrawalFee, s.pool.nextSolWithdrawalFee)
    case OnRewards => Schedule(s.pool.epochFee, s.pool.nextEpochFee)
  }

  /** The step is the first balance update of an epoch. */
  ghost predicate Crosses(s: State, s': State) {
    s.pool.lastUpdate < s'.pool.lastUpdate
  }

  /** One step of a schedule; the fee on rewards may be set to any valid one. */
  ghost predicate TimedStep(s: State, s': State, kind: TimedFee) {
    var a, b := ScheduleOf(s, kind), ScheduleOf(s', kind);
    if kind == OnRewards && !Crosses(s, s') then
      b == a || (b.current == a.current && b.next.Two? && ValidFee(b.next.value))
    else ScheduleStep(a, b, Crosses(s, s'))
  }

  /** The schedules move together, by one step each. */
  ghost predicate SchedulesStep(s: State, s': State) {
    && TimedStep(s, s', OnStakeWithdrawal) && TimedStep(s, s', OnSolWithdrawal) && TimedStep(s, s', OnRewards)
    && s.pool.lastUpdate <= s'.pool.lastUpdate
    && (Crosses(s, s') ==> s'.pool.lastUpdate == s.epoch)
  }

  lemma SetFeeIsScheduleStep(s: State, fee: FeeType, s': State)
    requires SetFee(s, fee) == Ok(s')
    ensures SchedulesStep(s, s')
  {
  }

  lemma UpdateIsScheduleStep(s: State, feeAccountValid: bool, s': State)
    requires UpdateBalance(s, feeAccountValid) == Ok(s') && s.pool.lastUpdate <= s.epoch
    ensures SchedulesStep(s, s')
  {
  }

  lemma InstructionIsScheduleStep(s: State, op: Instruction, s': State)
    requires Apply(s, op) == Ok(s') && s.pool.lastUpdate <= s.epoch
    ensures SchedulesStep(s, s')
  {
    match op
    case InSetFee(fee) => SetFeeIsScheduleStep(s, fee, s');
    case InUpdateBalance(feeAccountValid) => UpdateIsScheduleStep(s, feeAccountValid, s');
    case _ => InstructionFrame(s, op, s');
  }

  /** Every step of the pool is a step of all three schedules. */
  lemma StepIsScheduleStep(s: State, s': State)
    requires Invariant(s) && Step(s, s')
    ensures SchedulesStep(s, s')
  {
    if op :| Apply(s, op) == Ok(s') {
      InstructionIsScheduleStep(s, op, s');
    }
  }

  ghost function Schedules(run: seq<State>, kind: TimedFee): (r: seq<Schedule>)
    ensures |r| == |run| && forall i :: 0 <= i < |run| ==> r[i] == ScheduleOf(run[i], kind)
  {
    seq(|run|, i requires 0 <= i < |run| => ScheduleOf(run[i], kind))
  }

  ghost function Crossings(run: seq<State>): (r: seq<bool>)
    requires |run| > 0
    ensures |r| == |run| - 1
  {
    seq(|run| - 1, i requires 0 <= i < |run| - 1 => Crosses(run[i], run[i + 1]))
  }

  /** If the step accepts a change of the fee, the acceptance test is sound for the fee in force. */
  ghost predicate SoundlyAt(run: seq<State>, kind: TimedFee, i: nat)
    requires i + 1 < |run|
  {
    || Crosses(run[i], run[i + 1]) || ScheduleOf(run[i + 1], kind) == ScheduleOf(run[i], kind)
    || Checkable(ScheduleOf(run[i], kind).current)
  }

  lemma StepAtIsScheduleStep(run: seq<State>, i: nat)
    requires Run(run) && Invariant(run[0]) && i + 1 < |run|
    ensures SchedulesStep(run[i], run[i + 1])
  {
    RunKeeps(run, i);
    assert StepAt(run, i);
    StepIsScheduleStep(run[i], run[i + 1]);
  }

  lemma ScheduleIsValidAt(run: seq<State>, kind: TimedFee, i: nat)
    requires Run(run) && Invariant(run[0]) && i < |run|
    ensures ValidSchedule(ScheduleOf(run[i], kind))
  {
    RunKeeps(run, i);
  }

  lemma SoundStepAt(run: seq<State>, kind: TimedFee, i: nat)
    requires Run(run) && Invariant(run[0]) && i + 1 < |run| && SoundlyAt(run, kind, i) && kind != OnRewards
    ensures SoundStep(ScheduleOf(run[i], kind), ScheduleOf(run[i + 1], kind), Crosses(run[i], run[i + 1]))
  {
    StepAtIsScheduleStep(run, i);
  }

  lemma RunIsScheduleRun(run: seq<State>, kind: TimedFee)
    requires Run(run) && Invariant(run[0]) && kind != OnRewards
    requires forall i :: 0 <= i < |run| - 1 ==> SoundlyAt(run, kind, i)
    ensures ScheduleRun(Schedules(run, kind), Crossings(run))
  {
    var schedules, crossed := Schedules(run, kind), Crossings(run);
    forall i | 0 <= i < |schedules|
      ensures ValidSchedule(schedules[i])
    {
      ScheduleIsValidAt(run, kind, i);
    }
    forall i | 0 <= i < |crossed|
      ensures SoundStep(schedules[i], schedules[i + 1], crossed[i])
    {
      SoundStepAt(run, kind, i);
    }
  }

  /**
   * Over every run that starts with nothing pending and accepts changes only from checkable fees, after
   * n updates that open an epoch a withdrawal fee is at most max(its first value, 1/1000) · (3/2)^⌊n/2⌋,
   * and a pending one is at most 3/2 of the one in force, or of 1/1000.
   */
  lemma WithdrawalFeeGrowth(run: seq<State>, kind: TimedFee, i: nat)
    requires Run(run) && Invariant(run[0]) && i < |run| && kind != OnRewards
    requires forall k :: 0 <= k < |run| - 1 ==> SoundlyAt(run, kind, k)
    requires ScheduleOf(run[0], kind).next == Nothing
    ensures var first, now := ScheduleOf(run[0], kind), ScheduleOf(run[i], kind);
            && Rate(now.current) <= Grown(AtLeastBaseline(Rate(first.current)), Boundaries(Crossings(run), i) / 2)
            && (now.next != Nothing ==> Rate(now.next.value) <= 1.5 * AtLeastBaseline(Rate(now.current)))
  {
    RunIsScheduleRun(run, kind);
    ScheduleGrowth(Schedules(run, kind), Crossings(run), i);
  }

  // ---------------------------------------------------------------------------------------
  // A change waits two epochs
  // ---------------------------------------------------------------------------------------

  /** The current fee is still the old one, and the pending one has not waited long enough. */
  ghost predicate Waiting(s: State, kind: TimedFee, current: Fee, since: nat) {
    var schedule := ScheduleOf(s, kind);
    && schedule.current == current
    && since <= s.pool.lastUpdate
    && (schedule.next.Two? || (schedule.next.One? && since < s.pool.lastUpdate))
  }

  lemma WaitingStep(s: State, s': State, kind: TimedFee, current: Fee, since: nat)
    requires Invariant(s) && Step(s, s') && Waiting(s, kind, current, since)
    requires s.epoch < since + 2
    ensures Waiting(s', kind, current, since)
  {
    StepIsScheduleStep(s, s');
  }

  lemma WaitingStepAt(run: seq<State>, i: nat, kind: TimedFee, current: Fee, since: nat)
    requires Run(run) && i + 1 < |run| && Invariant(run[i]) && Waiting(run[i], kind, current, since)
             && run[i].epoch < since + 2
    ensures Waiting(run[i + 1], kind, current, since)
  {
    assert StepAt(run, i);
    WaitingStep(run[i], run[i + 1], kind, current, since);
  }

  /** The schedule a change of fee goes to, if its changes wait. */
  ghost function KindOf(fee: FeeType): Option<TimedFee> {
    match fee
    case StakeWithdrawal(_) => Some(OnStakeWithdrawal)
    case SolWithdrawal(_) => Some(OnSolWithdrawal)
    case EpochReward(_) => Some(OnRewards)
    case _ => None
  }

  /** A fee set in epoch e is not in force in any state before epoch e + 2, whatever is set in between. */
  lemma {:induction false} FeeChangeWaits(run: seq<State>, fee: FeeType, i: nat)
    requires Run(run) && Invariant(run[0]) && 1 <= i < |run|
    requires KindOf(fee).Some? && SetFee(run[0], fee) == Ok(run[1])
    requires run[i].epoch < run[0].epoch + 2
    ensures var kind := KindOf(fee).value;
            Waiting(run[i], kind, ScheduleOf(run[0], kind).current, run[0].epoch)
  {
    if i > 1 {
      var kind := KindOf(fee).value;
      RunKeeps(run, i - 1);
      RunStep(run, i - 1);
      FeeChangeWaits(run, fee, i - 1);
      WaitingStepAt(run, i - 1, kind, ScheduleOf(run[0], kind).current, run[0].epoch);
    }
  }

  /** Nobody sets this fee in step i of the run. */
  ghost predicate Undisturbed(run: seq<State>, kind: TimedFee, i: nat)
    requires i + 1 < |run|
  {
    Crosses(run[i], run[i + 1]) || ScheduleOf(run[i + 1], kind) == ScheduleOf(run[i], kind)
  }

  /** A change that was set, after so many updates that open an epoch. */
  ghost function Matured(old': Fee, new': Fee, crossings: nat): Schedule {
    if crossings == 0 then Schedule(old', Two(new'))
    else if crossings == 1 then Schedule(old', One(new'))
    else Schedule(new', Nothing)
  }

  lemma MaturesOn(run: seq<State>, kind: TimedFee, i: nat, old': Fee, new': Fee, crossings: nat)
    requires i + 1 < |run| && TimedStep(run[i], run[i + 1], kind) && Undisturbed(run, kind, i)
    requires ScheduleOf(run[i], kind) == Matured(old', new', crossings)
    ensures ScheduleOf(run[i + 1], kind)
            == Matured(old', new', crossings + if Crosses(run[i], run[i + 1]) then 1 else 0)
  {
  }

  lemma SetFeeStarts(s: State, fee: FeeType, s': State)
    requires KindOf(fee).Some? && SetFee(s, fee) == Ok(s')
    ensures var kind := KindOf(fee).value; ScheduleOf(s', kind) == Matured(ScheduleOf(s, kind).current, fee.fee, 0)
    ensures !Crosses(s, s')
  {
  }

  lemma BoundariesOn(crossed: seq<bool>, i: nat)
    requires i < |crossed|
    ensures Boundaries(crossed, i + 1) == Boundaries(crossed, i) + if crossed[i] then 1 else 0
  {
  }

  /** The change stands where the boundaries crossed so far have brought it. */
  ghost predicate MaturedAt(run: seq<State>, kind: TimedFee, old': Fee, new': Fee, i: nat)
    requires i < |run|
  {
    ScheduleOf(run[i], kind) == Matured(old', new', Boundaries(Crossings(run), i))
  }

  lemma {:induction false} MaturesAlong(run: seq<State>, kind: TimedFee, old': Fee, new': Fee, i: nat)
    requires Run(run) && Invariant(run[0]) && 1 <= i < |run| && MaturedAt(run, kind, old', new', 1)
    requires forall k :: 1 <= k < |run| - 1 ==> Undisturbed(run, kind, k)
    ensures MaturedAt(run, kind, old', new', i)
  {
    if i > 1 {
      MaturesAlong(run, kind, old', new', i - 1);
      BoundariesOn(Crossings(run), i - 1);
      StepAtIsScheduleStep(run, i - 1);
      assert Undisturbed(run, kind, i - 1);
      MaturesOn(run, kind, i - 1, old', new', Boundaries(Crossings(run), i - 1));
    }
  }

  /** A fee that is set, and not set again, comes into force with the second update that opens an epoch. */
  lemma FeeTakesEffect(run: seq<State>, fee: FeeType, i: nat)
    requires Run(run) && Invariant(run[0]) && 1 <= i < |run|
    requires KindOf(fee).Some? && SetFee(run[0], fee) == Ok(run[1])
    requires forall k :: 1 <= k < |run| - 1 ==> Undisturbed(run, KindOf(fee).value, k)
    ensures MaturedAt(run, KindOf(fee).value, ScheduleOf(run[0], KindOf(fee).value).current, fee.fee, i)
  {
    var kind := KindOf(fee).value;
    SetFeeStarts(run[0], fee, run[1]);
    BoundariesOn(Crossings(run), 0);
    MaturesAlong(run, kind, ScheduleOf(run[0], kind).current, fee.fee, i);
  }
}
