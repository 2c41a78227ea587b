/** The share price over whole runs, and what one party can take out of the pool. */
module PriceRuns {
  import opened Base
  import opened Pricing
  import opened PriceTheorems
  import opened Sums
  import opened World
  import opened Accounting
  import opened Handlers
  import opened Steps

  /** The price of a pool token does not fall from one state to the other. */
  ghost predicate PriceHeld(s: State, s': State) {
    PriceKept(s.pool.totalLamports, s.pool.tokenSupply, s'.pool.totalLamports, s'.pool.tokenSupply)
  }

  /** A balance update that finds no less than the last one did. */
  ghost predicate Lossless(s: State, op: Instruction, s': State) {
    op.InUpdateBalance? ==> s.pool.totalLamports <= s'.pool.totalLamports
  }

  // ---------------------------------------------------------------------------------------
  // Single instructions
  // ---------------------------------------------------------------------------------------

  lemma QuoteIsPriced(p: Pool, lamports: nat, delegated: nat, minimumOut: Option<nat>)
    ensures var q := QuoteSolDeposit(p, lamports, minimumOut);
            q.Ok? ==> TokensForDeposit(p.totalLamports, p.tokenSupply, lamports) == Some(q.value.total)
                      && q.value.user + q.value.manager + q.value.referrer == q.value.total
    ensures var q := QuoteStakeDeposit(p, lamports, delegated, minimumOut);
            q.Ok? ==> TokensForDeposit(p.totalLamports, p.tokenSupply, lamports) == Some(q.value.total)
                      && q.value.user + q.value.manager + q.value.referrer == q.value.total
  {
  }

  lemma DepositSolHoldsPrice(s: State, lamports: u64, minimumOut: Option<nat>, s': State)
    requires s.pool.tokenSupply > 0 && DepositSol(s, lamports, minimumOut) == Ok(s')
    ensures PriceHeld(s, s')
  {
    QuoteIsPriced(s.pool, lamports, 0, minimumOut);
    DepositKeepsPrice(s.pool.totalLamports, s.pool.tokenSupply, lamports, s'.pool.tokenSupply - s.pool.tokenSupply);
  }

  lemma DepositStakeHoldsPrice(s: State, vote: Pubkey, lamports: u64, delegated: u64, minimumOut: Option<nat>,
                               s': State)
    requires s.pool.tokenSupply > 0 && DepositStake(s, vote, lamports, delegated, minimumOut) == Ok(s')
    ensures PriceHeld(s, s')
  {
    QuoteIsPriced(s.pool, lamports, delegated, minimumOut);
    DepositKeepsPrice(s.pool.totalLamports, s.pool.tokenSupply, lamports, s'.pool.tokenSupply - s.pool.tokenSupply);
  }

  /** A debit of at most the quoted lamports for the quoted tokens. */
  lemma DebitHoldsPrice(s: State, s1: State, fee: Fee, tokens: nat, minimumOut: Option<nat>, feeWaived: bool,
                        lamports: nat, s': State)
    requires QuoteWithdrawal(s.pool, fee, tokens, minimumOut, feeWaived).Ok?
    requires s1.pool == s.pool
    requires var q := QuoteWithdrawal(s.pool, fee, tokens, minimumOut, feeWaived).value;
             lamports <= q.lamports && Debit(s1, lamports, q.burnt) == Ok(s')
    ensures PriceHeld(s, s')
  {
    var q := QuoteWithdrawal(s.pool, fee, tokens, minimumOut, feeWaived).value;
    WithdrawalKeepsPrice(s.pool.totalLamports, s.pool.tokenSupply, q.burnt, q.lamports, lamports);
  }

  lemma WithdrawSolHoldsPrice(s: State, tokens: u64, minimumOut: Option<nat>, feeWaived: bool, s': State)
    requires WithdrawSol(s, tokens, minimumOut, feeWaived) == Ok(s')
    ensures PriceHeld(s, s')
  {
    var q := QuoteWithdrawal(s.pool, s.pool.solWithdrawalFee, tokens, minimumOut, feeWaived).value;
    DebitHoldsPrice(s, s.(reserve := s.reserve - q.lamports), s.pool.solWithdrawalFee, tokens, minimumOut, feeWaived,
                    q.lamports, s');
  }

  /** Also the truncated withdrawal of a whole account holds the price. */
  lemma WithdrawStakeHoldsPrice(s: State, source: Source, tokens: u64, minimumOut: Option<nat>, feeWaived: bool,
                                s': State)
    requires WithdrawStake(s, source, tokens, minimumOut, feeWaived) == Ok(s')
    ensures PriceHeld(s, s')
  {
    var q, taken := WithdrawStakeDebits(s, source, tokens, minimumOut, feeWaived, s');
    DebitHoldsPrice(s, taken.0, s.pool.stakeWithdrawalFee, tokens, minimumOut, feeWaived, taken.1, s');
  }

  lemma RewardKeepsPrice(total: nat, supply: nat, fee: Fee, total': nat, minted: nat, supply': nat)
    requires ValidFee(fee) && supply > 0 && total <= total' <= U64_MAX && supply' <= supply + minted
    requires minted == 0 || EpochFeeTokens(total, supply, fee, total' - total) == Some(minted)
    ensures PriceKept(total, supply, total', supply')
  {
    assert PriceKept(total, supply, total', supply + minted) by {
      if minted == 0 {
        MulMono(total, total', supply);
      } else {
        EpochFeeKeepsPrice(total, supply, fee, total' - total, minted);
      }
    }
    PriceKeptWithFewer(total, supply, total', supply + minted, supply');
  }

  lemma UpdateBalanceHoldsPrice(s: State, feeAccountValid: bool, s': State)
    requires Invariant(s) && s.pool.tokenSupply > 0 && Holdings(s) <= U64_MAX
    requires UpdateBalance(s, feeAccountValid) == Ok(s') && s.pool.totalLamports <= s'.pool.totalLamports
    ensures PriceHeld(s, s')
  {
    UpdateBalanceKeeps(s, feeAccountValid, s');
    RewardKeepsPrice(s.pool.totalLamports, s.pool.tokenSupply, s.pool.epochFee,
                     s'.pool.totalLamports, s'.mintSupply - s.mintSupply, s'.pool.tokenSupply);
  }

  lemma SameTotalsSamePrice(s: State, s': State)
    requires s'.pool.totalLamports == s.pool.totalLamports && s'.pool.tokenSupply == s.pool.tokenSupply
    ensures PriceHeld(s, s')
  {
  }

  lemma InstructionHoldsPrice(s: State, op: Instruction, s': State)
    requires Invariant(s) && s.pool.tokenSupply > 0 && Holdings(s) <= U64_MAX
    requires Apply(s, op) == Ok(s') && Lossless(s, op, s')
    ensures PriceHeld(s, s')
  {
    match op
    case InDepositSol(lamports, minimumOut) => DepositSolHoldsPrice(s, lamports, minimumOut, s');
    case InDepositStake(vote, lamports, delegated, minimumOut) =>
      DepositStakeHoldsPrice(s, vote, lamports, delegated, minimumOut, s');
    case InWithdrawSol(tokens, minimumOut, feeWaived) => WithdrawSolHoldsPrice(s, tokens, minimumOut, feeWaived, s');
    case InWithdrawStake(source, tokens, minimumOut, feeWaived) =>
      WithdrawStakeHoldsPrice(s, source, tokens, minimumOut, feeWaived, s');
    case InUpdateBalance(feeAccountValid) => UpdateBalanceHoldsPrice(s, feeAccountValid, s');
    case _ =>
      InstructionFrame(s, op, s');
      SameTotalsSamePrice(s, s');
  }

  // ---------------------------------------------------------------------------------------
  // Runs
  // ---------------------------------------------------------------------------------------

  ghost predicate LosslessStep(s: State, s': State) {
    || s' == s
    || (exists op :: Apply(s, op) == Ok(s') && Lossless(s, op, s'))
    || EpochBoundary(s, s')
    || ForcedDeactivation(s, s')
    || OutsideBurn(s, s')
  }

  /** A run in which no balance update finds a loss and the supply never runs out. */
  ghost predicate LosslessRun(run: seq<State>) {
    && Run(run)
    && (forall i :: 0 <= i < |run| ==> run[i].pool.tokenSupply > 0)
    && (forall i :: 0 <= i < |run| - 1 ==> LosslessAt(run, i))
  }

  ghost predicate LosslessAt(run: seq<State>, i: nat)
    requires i + 1 < |run|
  {
    LosslessStep(run[i], run[i + 1])
  }

  lemma LosslessStepHoldsPrice(s: State, s': State)
    requires Invariant(s) && s.pool.tokenSupply > 0 && Holdings(s) <= U64_MAX && LosslessStep(s, s')
    ensures PriceHeld(s, s')
  {
    if op :| Apply(s, op) == Ok(s') && Lossless(s, op, s') {
      InstructionHoldsPrice(s, op, s');
    } else {
      SameTotalsSamePrice(s, s');
    }
  }

  lemma PriceHeldTransitive(a: State, b: State, c: State)
    requires b.pool.tokenSupply > 0 && PriceHeld(a, b) && PriceHeld(b, c)
    ensures PriceHeld(a, c)
  {
    PriceKeptTransitive(a.pool.totalLamports, a.pool.tokenSupply, b.pool.totalLamports, b.pool.tokenSupply,
                        c.pool.totalLamports, c.pool.tokenSupply);
  }

  lemma PriceHeldAt(run: seq<State>, i: nat)
    requires LosslessRun(run) && i + 1 < |run| && Invariant(run[i])
    ensures PriceHeld(run[i], run[i + 1])
  {
    assert LosslessAt(run, i);
    LosslessStepHoldsPrice(run[i], run[i + 1]);
  }

  /** Over every such run the value of a pool token never falls. */
  lemma {:induction false} PriceNeverFalls(run: seq<State>, i: nat)
    requires LosslessRun(run) && Invariant(run[0]) && i < |run|
    ensures PriceHeld(run[0], run[i])
  {
    if i > 0 {
      PriceNeverFalls(run, i - 1);
      RunKeeps(run, i - 1);
      PriceHeldAt(run, i - 1);
      PriceHeldTransitive(run[0], run[i - 1], run[i]);
    }
  }

  // ---------------------------------------------------------------------------------------
  // One party
  // ---------------------------------------------------------------------------------------

  /** The most a party gains from the minting of a deposit: it may be depositor, manager and referrer in one. */
  ghost predicate GainsFrom(q: Result<Minted>, held: nat, held': nat) {
    q.Ok? && held' <= held + q.value.total
  }

  /** It redeems tokens it holds; as the manager it gets the fee back, and only the rest is burnt. */
  ghost predicate Redeems(q: Result<Redemption>, tokens: nat, held: nat, held': nat) {
    q.Ok? && tokens <= held && held' + q.value.burnt <= held
  }

  /**
   * What a party may hold after an instruction, when every deposit and withdrawal of the run is its own.
   * A party is one holder or several acting together, the manager and the referrers among them, and it
   * may give tokens away.
   */
  ghost predicate HeldAfter(s: State, op: Instruction, s': State, held: nat, held': nat) {
    match op
    case InDepositSol(lamports, minimumOut) => GainsFrom(QuoteSolDeposit(s.pool, lamports, minimumOut), held, held')
    case InDepositStake(vote, lamports, delegated, minimumOut) =>
      GainsFrom(QuoteStakeDeposit(s.pool, lamports, delegated, minimumOut), held, held')
    case InWithdrawSol(tokens, minimumOut, feeWaived) =>
      Redeems(QuoteWithdrawal(s.pool, s.pool.solWithdrawalFee, tokens, minimumOut, feeWaived), tokens, held, held')
    case InWithdrawStake(source, tokens, minimumOut, feeWaived) =>
      Redeems(QuoteWithdrawal(s.pool, s.pool.stakeWithdrawalFee, tokens, minimumOut, feeWaived), tokens, held, held')
    case InUpdateBalance(_) => held' - held <= s'.mintSupply - s.mintSupply
    case _ => held' <= held
  }

  ghost predicate PartyStep(s: State, held: nat, s': State, held': nat) {
    || (s' == s && held' <= held)
    || (exists op :: Apply(s, op) == Ok(s') && Lossless(s, op, s') && HeldAfter(s, op, s', held, held'))
    || ((EpochBoundary(s, s') || ForcedDeactivation(s, s')) && held' <= held)
  }

  ghost predicate PartyRun(run: seq<State>, held: seq<nat>) {
    && Run(run) && |held| == |run|
    && (forall i :: 0 <= i < |run| ==> run[i].pool.tokenSupply > 0)
    && (forall i :: 0 <= i < |run| - 1 ==> PartyAt(run, held, i))
  }

  ghost predicate PartyAt(run: seq<State>, held: seq<nat>, i: nat)
    requires i + 1 < |run| == |held|
  {
    PartyStep(run[i], held[i], run[i + 1], held[i + 1])
  }

  lemma WithdrawalBurns(s: State, op: Instruction, s': State, held: nat, held': nat)
    requires op.InWithdrawSol? || op.InWithdrawStake?
    requires Apply(s, op) == Ok(s') && HeldAfter(s, op, s', held, held')
    ensures s.mintSupply - s'.mintSupply == s.pool.tokenSupply - s'.pool.tokenSupply <= held - held'
  {
    if op.InWithdrawStake? {
      var q, taken := WithdrawStakeDebits(s, op.source, op.tokens, op.minimumOut, op.feeWaived, s');
    }
  }

  lemma DepositMints(s: State, op: Instruction, s': State, held: nat, held': nat)
    requires op.InDepositSol? || op.InDepositStake?
    requires Apply(s, op) == Ok(s') && HeldAfter(s, op, s', held, held')
    ensures s'.mintSupply - s.mintSupply == s'.pool.tokenSupply - s.pool.tokenSupply >= held' - held
  {
  }

  /** What others hold only grows, and the recorded supply stays the mint's supply. */
  lemma OthersKeepTheirs(s: State, held: nat, op: Instruction, s': State, held': nat)
    requires s.mintSupply == s.pool.tokenSupply
    requires Apply(s, op) == Ok(s') && HeldAfter(s, op, s', held, held')
    ensures s'.mintSupply == s'.pool.tokenSupply
    ensures s'.mintSupply - held' >= s.mintSupply - held
  {
    if op.InDepositSol? || op.InDepositStake? {
      DepositMints(s, op, s', held, held');
    } else if op.InWithdrawSol? || op.InWithdrawStake? {
      WithdrawalBurns(s, op, s', held, held');
    } else if !op.InUpdateBalance? {
      InstructionFrame(s, op, s');
    }
  }

  lemma PartyStepKeeps(s: State, held: nat, s': State, held': nat)
    requires PartyStep(s, held, s', held')
    ensures LosslessStep(s, s')
    ensures s.mintSupply == s.pool.tokenSupply ==>
              s'.mintSupply == s'.pool.tokenSupply && s'.mintSupply - held' >= s.mintSupply - held
  {
    if op :| Apply(s, op) == Ok(s') && Lossless(s, op, s') && HeldAfter(s, op, s', held, held') {
      if s.mintSupply == s.pool.tokenSupply {
        OthersKeepTheirs(s, held, op, s', held');
      }
    }
  }

  /** The tokens in other hands. */
  ghost predicate OthersHold(s: State, held: nat, others: int) {
    s.mintSupply == s.pool.tokenSupply && s.mintSupply - held >= others
  }

  lemma PartyStepAt(run: seq<State>, held: seq<nat>, i: nat, others: int)
    requires PartyRun(run, held) && i + 1 < |run| && OthersHold(run[i], held[i], others)
    ensures OthersHold(run[i + 1], held[i + 1], others)
  {
    assert PartyAt(run, held, i);
    PartyStepKeeps(run[i], held[i], run[i + 1], held[i + 1]);
  }

  lemma {:induction false} PartyRunKeeps(run: seq<State>, held: seq<nat>, i: nat, others: int)
    requires PartyRun(run, held) && i < |run| && OthersHold(run[0], held[0], others)
    ensures OthersHold(run[i], held[i], others)
  {
    if i > 0 {
      PartyRunKeeps(run, held, i - 1, others);
      PartyStepAt(run, held, i - 1, others);
    }
  }

  /**
   * Whatever deposits and withdrawals a party that starts and ends without tokens makes, in whatever
   * order and with whatever rewards in between, the pool is left with no less than it had.
   */
  lemma NoPartyProfits(run: seq<State>, held: seq<nat>)
    requires PartyRun(run, held) && Invariant(run[0]) && run[0].mintSupply == run[0].pool.tokenSupply
    requires held[0] == 0 && held[|run| - 1] == 0
    ensures var first, last := run[0], run[|run| - 1];
            && first.pool.totalLamports <= last.pool.totalLamports
            && first.pool.tokenSupply <= last.pool.tokenSupply
            && (first.pool.lastUpdate == first.epoch && last.pool.lastUpdate == last.epoch ==>
                  Holdings(first) <= Holdings(last))
  {
    var n := |run| - 1;
    PartyRunKeeps(run, held, n, run[0].mintSupply);
    forall i | 0 <= i < n
      ensures LosslessAt(run, i)
    {
      assert PartyAt(run, held, i);
      PartyStepKeeps(run[i], held[i], run[i + 1], held[i + 1]);
    }
    PriceNeverFalls(run, n);
    var t0, s0 := run[0].pool.totalLamports, run[0].pool.tokenSupply;
    var t1, s1 := run[n].pool.totalLamports, run[n].pool.tokenSupply;
    MulMono(s0, s1, t0);
    CancelFactor(t0, t1, s0);
    RunKeeps(run, 0);
    RunKeeps(run, n);
  }

  // ---------------------------------------------------------------------------------------
  // The party's ledger
  // ---------------------------------------------------------------------------------------

  ghost function PutIn(op: Instruction): nat {
    if op.InDepositSol? || op.InDepositStake? then op.lamports else 0
  }

  /** The lamports a withdrawal pays out: the quote, or the whole account it is truncated to. */
  ghost function PaidOut(s: State, op: Instruction): nat {
    match op
    case InWithdrawSol(tokens, minimumOut, feeWaived) =>
      var q := QuoteWithdrawal(s.pool, s.pool.solWithdrawalFee, tokens, minimumOut, feeWaived);
      if q.Ok? then q.value.lamports else 0
    case InWithdrawStake(source, tokens, minimumOut, feeWaived) =>
      var q := QuoteWithdrawal(s.pool, s.pool.stakeWithdrawalFee, tokens, minimumOut, feeWaived);
      if q.Ok? && TakeStake(s, source, q.value).Ok? then TakeStake(s, source, q.value).value.1 else 0
    case _ => 0
  }

  /** Instructions of one epoch in which all deposits and withdrawals are the party's. */
  ghost predicate TradingRun(run: seq<State>, ops: seq<Instruction>, held: seq<nat>) {
    && |run| == |held| == |ops| + 1
    && (forall i :: 0 <= i < |run| ==> Holdings(run[i]) <= U64_MAX && run[i].pool.tokenSupply > 0)
    && (forall i :: 0 <= i < |ops| ==> TradeAt(run, ops, held, i))
  }

  ghost predicate TradeAt(run: seq<State>, ops: seq<Instruction>, held: seq<nat>, i: nat)
    requires i < |ops| && |run| == |held| == |ops| + 1
  {
    Apply(run[i], ops[i]) == Ok(run[i + 1]) && HeldAfter(run[i], ops[i], run[i + 1], held[i], held[i + 1])
  }

  ghost function Deposits(ops: seq<Instruction>): (r: seq<nat>)
    ensures |r| == |ops|
  {
    seq(|ops|, i requires 0 <= i < |ops| => PutIn(ops[i]))
  }

  ghost function Payments(run: seq<State>, ops: seq<Instruction>): (r: seq<nat>)
    requires |run| == |ops| + 1
    ensures |r| == |ops|
  {
    seq(|ops|, i requires 0 <= i < |ops| => PaidOut(run[i], ops[i]))
  }

  ghost function AllHoldings(run: seq<State>): (r: seq<nat>)
    ensures |r| == |run|
  {
    seq(|run|, i requires 0 <= i < |run| => Holdings(run[i]))
  }

  /** The pool is up to date and knows the exact supply. */
  ghost predicate Current(s: State) {
    Invariant(s) && s.pool.lastUpdate == s.epoch && s.mintSupply == s.pool.tokenSupply
  }

  /** A balance update of such a pool finds nothing to update. */
  lemma CurrentNeedsNoUpdate(s: State, feeAccountValid: bool, s': State)
    requires Current(s) && UpdateBalance(s, feeAccountValid) == Ok(s')
    ensures s' == s
  {
    TotalStakeIsTheSum(s.validators, s.epoch, s.reserve - s.chain.reserveRent);
  }

  lemma WithdrawalPays(s: State, op: Instruction, s': State)
    requires Apply(s, op) == Ok(s') && (op.InWithdrawSol? || op.InWithdrawStake?)
    ensures s'.pool.totalLamports == s.pool.totalLamports - PaidOut(s, op)
  {
    if op.InWithdrawStake? {
      var _, _ := WithdrawStakeDebits(s, op.source, op.tokens, op.minimumOut, op.feeWaived, s');
    }
  }

  /** The recorded total rises by what a deposit brings and falls by what a withdrawal pays. */
  lemma TotalFollows(s: State, op: Instruction, s': State)
    requires Apply(s, op) == Ok(s') && !op.InUpdateBalance?
    ensures s'.pool.totalLamports + PaidOut(s, op) == s.pool.totalLamports + PutIn(op)
  {
    if op.InWithdrawSol? || op.InWithdrawStake? {
      WithdrawalPays(s, op, s');
    } else if op.InDepositStake? {
      var _, _ := DepositStakeEffect(s, op.vote, op.lamports, op.delegated, op.minimumOut, s');
    } else if !op.InDepositSol? {
      InstructionFrame(s, op, s');
    }
  }

  lemma StaysUpToDate(s: State, op: Instruction, s': State)
    requires Apply(s, op) == Ok(s') && !op.InUpdateBalance?
    ensures s'.pool.lastUpdate == s.pool.lastUpdate && s'.epoch == s.epoch && s'.chain == s.chain
  {
    InstructionFrame(s, op, s');
  }

  lemma AccountedStep(s: State, op: Instruction, s': State)
    requires Current(s) && Holdings(s) <= U64_MAX && Apply(s, op) == Ok(s') && !op.InUpdateBalance?
    ensures Invariant(s') && s'.pool.lastUpdate == s'.epoch
    ensures Holdings(s') + PaidOut(s, op) == Holdings(s) + PutIn(op)
  {
    InstructionKeeps(s, op, s');
    StaysUpToDate(s, op, s');
    UpToDateMeansAccounted(s);
    UpToDateMeansAccounted(s');
    TotalFollows(s, op, s');
  }

  /** What a party puts in and is paid is what the reserve and the stake accounts gain and lose. */
  lemma LedgerStep(s: State, op: Instruction, s': State, held: nat, held': nat)
    requires Current(s) && Holdings(s) <= U64_MAX
    requires Apply(s, op) == Ok(s') && HeldAfter(s, op, s', held, held')
    ensures Current(s') && Lossless(s, op, s')
    ensures Holdings(s') + PaidOut(s, op) == Holdings(s) + PutIn(op)
  {
    if op.InUpdateBalance? {
      CurrentNeedsNoUpdate(s, op.feeAccountValid, s');
    } else {
      AccountedStep(s, op, s');
      OthersKeepTheirs(s, held, op, s', held');
    }
  }

  lemma LedgerAt(run: seq<State>, ops: seq<Instruction>, held: seq<nat>, i: nat)
    requires TradingRun(run, ops, held) && i < |ops| && Current(run[i])
    ensures Current(run[i + 1])
    ensures Holdings(run[i + 1]) + PaidOut(run[i], ops[i]) == Holdings(run[i]) + PutIn(ops[i])
    ensures StepAt(run, i) && PartyAt(run, held, i)
  {
    assert TradeAt(run, ops, held, i);
    LedgerStep(run[i], ops[i], run[i + 1], held[i], held[i + 1]);
  }

  lemma {:induction false} StaysCurrent(run: seq<State>, ops: seq<Instruction>, held: seq<nat>, i: nat)
    requires TradingRun(run, ops, held) && i <= |ops| && Current(run[0])
    ensures Current(run[i])
  {
    if i > 0 {
      StaysCurrent(run, ops, held, i - 1);
      LedgerAt(run, ops, held, i - 1);
    }
  }

  lemma BooksAt(run: seq<State>, ops: seq<Instruction>, held: seq<nat>, i: nat)
    requires TradingRun(run, ops, held) && i < |ops| && Current(run[0])
    ensures AllHoldings(run)[i + 1] + Payments(run, ops)[i] == AllHoldings(run)[i] + Deposits(ops)[i]
  {
    StaysCurrent(run, ops, held, i);
    LedgerAt(run, ops, held, i);
  }

  /** Over the whole run deposits and payments account for every lamport gained or lost. */
  lemma Ledger(run: seq<State>, ops: seq<Instruction>, held: seq<nat>)
    requires TradingRun(run, ops, held) && Current(run[0])
    ensures Holdings(run[|ops|]) + Sum(Payments(run, ops)) == Holdings(run[0]) + Sum(Deposits(ops))
  {
    var balance, put, paid := AllHoldings(run), Deposits(ops), Payments(run, ops);
    forall i | 0 <= i < |put|
      ensures balance[i + 1] + paid[i] == balance[i] + put[i]
    {
      BooksAt(run, ops, held, i);
    }
    Telescopes(balance, put, paid);
  }

  lemma TradingRunIsPartyRun(run: seq<State>, ops: seq<Instruction>, held: seq<nat>)
    requires TradingRun(run, ops, held) && Current(run[0])
    ensures PartyRun(run, held)
  {
    forall i | 0 <= i < |ops|
      ensures StepAt(run, i) && PartyAt(run, held, i)
    {
      StaysCurrent(run, ops, held, i);
      LedgerAt(run, ops, held, i);
    }
  }

  /**
   * A party that starts and ends without tokens is paid at most the lamports it put in, whatever
   * instructions the epoch brings, and the tokens of the others do not shrink.
   */
  lemma TakesOutAtMostWhatItPutIn(run: seq<State>, ops: seq<Instruction>, held: seq<nat>)
    requires TradingRun(run, ops, held) && Current(run[0])
    requires held[0] == 0 && held[|ops|] == 0
    ensures Sum(Payments(run, ops)) <= Sum(Deposits(ops))
    ensures run[0].mintSupply <= run[|ops|].mintSupply
  {
    Ledger(run, ops, held);
    StaysCurrent(run, ops, held, |ops|);
    TradingRunIsPartyRun(run, ops, held);
    NoPartyProfits(run, held);
  }
}
