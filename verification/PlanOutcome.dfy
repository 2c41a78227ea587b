/** What a plan comes to: after the next epoch's update the stake is where the plan wanted it. */
module PlanOutcome {
  import opened Base
  import opened Sums
  import opened World
  import opened ListUpdate
  import opened Accounting
  import opened ChunkUpdate
  import opened Refreshing
  import opened Handlers
  import opened Steps
  import opened UpdatePlans
  import opened Sorting
  import opened Planner
  import opened PlanExecution

  // ---------------------------------------------------------------------------------------
  // Sweeping the list chunk by chunk
  // ---------------------------------------------------------------------------------------

  /** The first n entries are refreshed, each once, and the others untouched. */
  ghost predicate Swept(s: State, m: State, n: nat) {
    && Invariant(m) && |m.validators| == |s.validators| && m.epoch == s.epoch && m.chain == s.chain
    && Holdings(m) == Holdings(s)
    && (forall j {:trigger RefreshedFrom(s, m, j, false)} :: 0 <= j < |s.validators| && j < n ==>
          RefreshedFrom(s, m, j, false))
    && (forall j {:trigger LeftAlone(s, m, j)} :: n <= j < |s.validators| ==> LeftAlone(s, m, j))
  }

  lemma RefreshedVia(s: State, m: State, r: State, j: nat)
    requires LeftAlone(s, m, j) && m.epoch == s.epoch && RefreshedFrom(m, r, j, false)
    ensures RefreshedFrom(s, r, j, false)
  {
    RefreshIsLocal(Books(s.validators[j], 0, s.accounts), Books(m.validators[j], 0, m.accounts), s.epoch, false);
  }

  lemma LeftAloneVia(s: State, m: State, r: State, j: nat)
    requires LeftAlone(s, m, j) && LeftAlone(m, r, j)
    ensures LeftAlone(s, r, j)
  {
  }

  /** One more chunk of entries, supplied with their own accounts. */
  lemma SweepChunk(s: State, m: State, n: nat, pairs: seq<AccountPair>)
    requires Swept(s, m, n) && n + |pairs| <= |m.validators|
    requires forall k :: 0 <= k < |pairs| ==> Matches(m.validators[n + k], pairs[k])
    ensures Swept(s, RefreshChunk(m, n, pairs, false), n + |pairs|)
  {
    var r := RefreshChunk(m, n, pairs, false);
    RefreshChunkConserves(m, n, pairs, false);
    RefreshChunkKeepsInvariant(m, n, pairs, false);
    forall j | 0 <= j < |s.validators| && j < n + |pairs|
      ensures RefreshedFrom(s, r, j, false)
    {
      if j < n {
        assert Tracked(m, r, j, Covered(m, n, pairs, |pairs|, j));
        assert RefreshedFrom(s, m, j, false);
        RefreshedStays(s, m, r, j, false);
      } else {
        assert LeftAlone(s, m, j) && Matches(m.validators[n + (j - n)], pairs[j - n]);
        ChunkRefreshes(m, n, pairs, false, j);
        RefreshedVia(s, m, r, j);
      }
    }
    forall j | n + |pairs| <= j < |s.validators|
      ensures LeftAlone(s, r, j)
    {
      assert Tracked(m, r, j, Covered(m, n, pairs, |pairs|, j));
      assert LeftAlone(s, m, j);
      LeftAloneVia(s, m, r, j);
    }
  }

  lemma {:induction false} RunAllThen(s: State, ops: seq<Instruction>, op: Instruction, m: State)
    requires RunAll(s, ops) == Ok(m)
    ensures RunAll(s, ops + [op]) == Apply(m, op)
    decreases |ops|
  {
    if ops == [] {
      assert [op][1..] == [];
    } else {
      var s1 := Apply(s, ops[0]).value;
      assert (ops + [op])[1..] == ops[1..] + [op];
      RunAllThen(s1, ops[1..], op, m);
    }
  }

  lemma NothingSwept(s: State)
    requires Invariant(s)
    ensures Swept(s, s, 0)
  {
  }

  /** The accounts of the entries not swept yet are still the ones the plan supplies. */
  lemma StillTheirs(s: State, m: State, n: nat, pairs: seq<AccountPair>)
    requires Swept(s, m, n) && n + |pairs| <= |s.validators| && pairs == PairsOf(s.validators[n..n + |pairs|])
    ensures forall k :: 0 <= k < |pairs| ==> Matches(m.validators[n + k], pairs[k])
  {
    forall k | 0 <= k < |pairs|
      ensures Matches(m.validators[n + k], pairs[k])
    {
      assert LeftAlone(s, m, n + k);
    }
  }

  lemma SweepStep(s: State, m: State, k: nat) returns (op: Instruction, r: State)
    requires k < ChunkCount(|s.validators|) && Swept(s, m, k * MAX_VALIDATORS_TO_UPDATE)
    ensures PlanOf(s.validators, false, None, k + 1) == PlanOf(s.validators, false, None, k) + [op]
    ensures Apply(m, op) == Ok(r)
    ensures Swept(s, r, Min((k + 1) * MAX_VALIDATORS_TO_UPDATE, |s.validators|))
  {
    var start, len := k * MAX_VALIDATORS_TO_UPDATE, ChunkLength(|s.validators|, k);
    var pairs := PairsOf(s.validators[start..start + len]);
    op := UpdateChunk(s.validators, len, start, false).value;
    StillTheirs(s, m, start, pairs);
    SweepChunk(s, m, start, pairs);
    r := RefreshChunk(m, start, pairs, false);
  }

  /** The run has come to m. */
  ghost predicate Came(s: State, ops: seq<Instruction>, m: State) {
    RunAll(s, ops) == Ok(m)
  }

  lemma CameOn(s: State, ops: seq<Instruction>, m: State, op: Instruction, r: State)
    requires Came(s, ops, m) && Apply(m, op) == Ok(r)
    ensures Came(s, ops + [op], r)
  {
    RunAllThen(s, ops, op, m);
  }

  lemma SweepOn(s: State, m: State, k: nat) returns (r: State)
    requires k < ChunkCount(|s.validators|)
    requires Came(s, PlanOf(s.validators, false, None, k), m) && Swept(s, m, k * MAX_VALIDATORS_TO_UPDATE)
    ensures Came(s, PlanOf(s.validators, false, None, k + 1), r)
    ensures Swept(s, r, Min((k + 1) * MAX_VALIDATORS_TO_UPDATE, |s.validators|))
  {
    var op;
    op, r := SweepStep(s, m, k);
    CameOn(s, PlanOf(s.validators, false, None, k), m, op, r);
  }

  /** The full update plan refreshes every entry exactly once. */
  lemma {:induction false} PlanSweeps(s: State, k: nat) returns (r: State)
    requires Invariant(s) && k <= ChunkCount(|s.validators|)
    ensures Came(s, PlanOf(s.validators, false, None, k), r)
    ensures Swept(s, r, Min(k * MAX_VALIDATORS_TO_UPDATE, |s.validators|))
  {
    if k == 0 {
      r := s;
      NothingSwept(s);
    } else {
      var m := PlanSweeps(s, k - 1);
      r := SweepOn(s, m, k - 1);
    }
  }

  // ---------------------------------------------------------------------------------------
  // One change
  // ---------------------------------------------------------------------------------------

  /** An epoch boundary that changes no balance and no stake. */
  ghost predicate Quiet(t: State, t': State) {
    t' == t.(epoch := t'.epoch) && t.epoch < t'.epoch < EPOCH_MAX
  }

  lemma QuietKeeps(t: State, t': State)
    requires Invariant(t) && Quiet(t, t')
    ensures EpochBoundary(t, t') && Invariant(t')
  {
    forall a | a in t.accounts
      ensures Survives(t.accounts[a], t'.accounts[a], t'.epoch)
    {
      assert SoundAccount(t.accounts[a]) && RegularAccount(t.accounts[a], t.chain.stakeRent, t.epoch);
    }
    EpochBoundaryKeeps(t, t');
  }

  /** The validator account holds its delegation and its rent, nothing more, and is not activated in the future. */
  ghost predicate FullyDelegated(s: State, i: nat) {
    && i < |s.validators| && s.validators[i].ValidatorAddress() in s.accounts
    && var account := s.accounts[s.validators[i].ValidatorAddress()];
       && account.state.Delegated? && account.state.activation <= s.epoch
       && account.lamports == account.state.stake + account.rent
  }

  /** The record of entry i shows the stake the change asked for. */
  ghost predicate Levelled(s: State, c: StakeChange, i: nat, e: ValidatorStakeInfo)
    requires i < |s.validators|
  {
    e.active == s.validators[i].active + c.lamports && e.transient == 0 && e.status == Active
  }

  lemma IncreaseSettles(s: State, c: StakeChange, i: nat, t: State, t': State)
    requires Invariant(s) && s.pool.lastUpdate == s.epoch && Executable(s, c, i) && FullyDelegated(s, i)
    requires t.epoch == s.epoch && Started(s, c, i, t) && Quiet(t, t') && c.lamports > 0
    ensures Levelled(s, c, i, Fresh(t', i, false).entry)
    ensures EntryBalance(t'.validators[i], t'.accounts) == s.validators[i].active + c.lamports + s.chain.stakeRent
  {
    EntryInOrder(s, i);
    UpToDateMeansAccounted(s);
    assert Owns(s.validators[i], s.validators[i].ValidatorAddress());
  }

  lemma DecreaseSettles(s: State, c: StakeChange, i: nat, t: State, t': State)
    requires Invariant(s) && s.pool.lastUpdate == s.epoch && Executable(s, c, i) && FullyDelegated(s, i)
    requires t.epoch == s.epoch && Started(s, c, i, t) && Quiet(t, t') && c.lamports <= 0
    ensures Levelled(s, c, i, Fresh(t', i, false).entry)
    ensures EntryBalance(t'.validators[i], t'.accounts) == s.validators[i].active + s.chain.stakeRent
  {
    EntryInOrder(s, i);
    UpToDateMeansAccounted(s);
    assert Owns(s.validators[i], s.validators[i].ValidatorAddress());
  }

  lemma ChangeSettles(s: State, c: StakeChange, i: nat, t: State, t': State)
    requires Invariant(s) && s.pool.lastUpdate == s.epoch && Executable(s, c, i) && FullyDelegated(s, i)
    requires t.epoch == s.epoch && Started(s, c, i, t) && Quiet(t, t')
    ensures Levelled(s, c, i, Fresh(t', i, false).entry)
    ensures EntryBalance(t'.validators[i], t'.accounts)
            == s.validators[i].active + Max(c.lamports, 0) + s.chain.stakeRent
  {
    if c.lamports > 0 {
      IncreaseSettles(s, c, i, t, t');
    } else {
      DecreaseSettles(s, c, i, t, t');
    }
  }

  // ---------------------------------------------------------------------------------------
  // What comes back to the reserve
  // ---------------------------------------------------------------------------------------

  /** What a change that has settled returns to the reserve: the rent, and what a decrease freed. */
  function Returned(c: StakeChange, rent: nat): nat {
    rent + Max(-c.lamports, 0)
  }

  function Returns(changes: seq<StakeChange>, rent: nat): (r: seq<nat>)
    ensures |r| == |changes|
  {
    seq(|changes|, k requires 0 <= k < |changes| => Returned(changes[k], rent))
  }

  function Raises(changes: seq<StakeChange>): (r: seq<nat>)
    ensures |r| == |changes|
  {
    seq(|changes|, k requires 0 <= k < |changes| => Max(changes[k].lamports, 0))
  }

  function Cuts(changes: seq<StakeChange>): (r: seq<nat>)
    ensures |r| == |changes|
  {
    seq(|changes|, k requires 0 <= k < |changes| => Max(-changes[k].lamports, 0))
  }

  /** Spending on the raises and returns from the cuts differ by what was moved. */
  lemma SpendingAndReturns(changes: seq<StakeChange>, rent: nat, order: seq<nat>)
    requires Below(order, |changes|)
    ensures Sum(Select(Spending(changes, rent), order)) + Sum(Select(Cuts(changes), order))
            == Sum(Select(Returns(changes, rent), order)) + Sum(Select(Raises(changes), order))
  {
    var total := seq(|order|, k requires 0 <= k < |order| =>
                       Spent(changes[order[k]], rent) + Max(-changes[order[k]].lamports, 0));
    SumPointwise(Select(Spending(changes, rent), order), Select(Cuts(changes), order), total);
    SumPointwise(Select(Returns(changes, rent), order), Select(Raises(changes), order), total);
  }

  /** What the refresh of each entry brought to the reserve. */
  ghost function Gains(s: State, r: State): (g: seq<nat>)
    requires |r.validators| == |s.validators|
    requires forall j :: 0 <= j < |s.validators| ==>
               Balances(r.validators, r.accounts)[j] <= Balances(s.validators, s.accounts)[j]
    ensures |g| == |s.validators|
  {
    seq(|s.validators|, j requires 0 <= j < |s.validators| =>
      Balances(s.validators, s.accounts)[j] - Balances(r.validators, r.accounts)[j])
  }

  lemma RefreshGives(s: State, r: State, j: nat)
    requires RefreshedFrom(s, r, j, false)
    ensures EntryBalance(r.validators[j], r.accounts) <= EntryBalance(s.validators[j], s.accounts)
  {
    RefreshConserves(Books(s.validators[j], 0, s.accounts), s.epoch, false);
  }

  lemma ReserveGains(s: State, r: State)
    requires Swept(s, r, |s.validators|)
    ensures forall j :: 0 <= j < |s.validators| ==>
              Balances(r.validators, r.accounts)[j] <= Balances(s.validators, s.accounts)[j]
    ensures r.reserve == s.reserve + Sum(Gains(s, r))
  {
    forall j | 0 <= j < |s.validators|
      ensures Balances(r.validators, r.accounts)[j] <= Balances(s.validators, s.accounts)[j]
    {
      assert RefreshedFrom(s, r, j, false);
      RefreshGives(s, r, j);
    }
    SumPointwise(Balances(r.validators, r.accounts), Gains(s, r), Balances(s.validators, s.accounts));
  }

  // ---------------------------------------------------------------------------------------
  // The whole plan
  // ---------------------------------------------------------------------------------------

  /** Every change executed so far is where it should be. */
  ghost predicate AllLevelled(s: State, r: State, changes: seq<StakeChange>, at: seq<nat>, order: seq<nat>)
    requires |at| == |changes| && Below(order, |changes|)
  {
    forall k {:trigger order[k]} :: 0 <= k < |order| ==>
      && at[order[k]] < |s.validators| && at[order[k]] < |r.validators|
      && Levelled(s, changes[order[k]], at[order[k]], r.validators[at[order[k]]])
  }

  ghost predicate AllFullyDelegated(s: State, at: seq<nat>, order: seq<nat>)
    requires Below(order, |at|)
  {
    forall k {:trigger order[k]} :: 0 <= k < |order| ==> FullyDelegated(s, at[order[k]])
  }

  /** A change under way in t is levelled, and gives back what it should, once its entry is refreshed. */
  lemma Settled(s: State, c: StakeChange, i: nat, t: State, t': State, r: State)
    requires Invariant(s) && s.pool.lastUpdate == s.epoch && Executable(s, c, i) && FullyDelegated(s, i)
    requires t.epoch == s.epoch && Started(s, c, i, t) && Quiet(t, t') && RefreshedFrom(t', r, i, false)
    requires Invariant(r) && r.epoch == t'.epoch
    ensures Levelled(s, c, i, r.validators[i])
    ensures EntryBalance(t'.validators[i], t'.accounts)
            == EntryBalance(r.validators[i], r.accounts) + Returned(c, s.chain.stakeRent)
  {
    ChangeSettles(s, c, i, t, t');
    EntryInOrder(r, i);
  }

  lemma SettledAt(s: State, changes: seq<StakeChange>, at: seq<nat>, order: seq<nat>, t: State, t': State, r: State,
                  k: nat)
    requires Invariant(s) && s.pool.lastUpdate == s.epoch && Independent(s, changes, at)
    requires Below(order, |changes|) && k < |order| && FullyDelegated(s, at[order[k]])
    requires Underway(s, t, changes, at, order) && Quiet(t, t') && Swept(t', r, |t'.validators|)
    ensures var c, i := changes[order[k]], at[order[k]];
            && i < |s.validators| && i < |t'.validators| && i < |r.validators|
            && Levelled(s, c, i, r.validators[i])
            && EntryBalance(t'.validators[i], t'.accounts)
               == EntryBalance(r.validators[i], r.accounts) + Returned(c, s.chain.stakeRent)
  {
    var c, i := changes[order[k]], at[order[k]];
    assert order[k] in order;
    assert Executable(s, c, i) && Started(s, c, i, t);
    assert RefreshedFrom(t', r, i, false);
    Settled(s, c, i, t, t', r);
  }

  /** What distinct entries gave back adds up to no more than the reserve gained. */
  lemma GainsSelected(t': State, r: State, places: seq<nat>, returns': seq<nat>)
    requires Swept(t', r, |t'.validators|) && NoRepeats(places) && Below(places, |t'.validators|)
    requires |returns'| == |places|
    requires forall k {:trigger places[k]} :: 0 <= k < |places| ==>
               EntryBalance(t'.validators[places[k]], t'.accounts)
               == EntryBalance(r.validators[places[k]], r.accounts) + returns'[k]
    ensures r.reserve >= t'.reserve + Sum(returns')
  {
    ReserveGains(t', r);
    var gains := Gains(t', r);
    forall k | 0 <= k < |places|
      ensures gains[places[k]] == returns'[k]
    {
      GainAt(t', r, gains, places[k], returns'[k]);
    }
    SumSelected(gains, places);
    assert Select(gains, places) == returns';
  }

  lemma GainAt(t': State, r: State, gains: seq<nat>, j: nat, returned: nat)
    requires |r.validators| == |t'.validators| == |gains| && j < |gains|
    requires gains[j] + Balances(r.validators, r.accounts)[j] == Balances(t'.validators, t'.accounts)[j]
    requires EntryBalance(t'.validators[j], t'.accounts) == EntryBalance(r.validators[j], r.accounts) + returned
    ensures gains[j] == returned
  {
  }

  /** The entries of the selected changes, in their order. */
  ghost function PlacesOf(at: seq<nat>, order: seq<nat>): (r: seq<nat>)
    requires Below(order, |at|)
    ensures |r| == |order| && forall k :: 0 <= k < |order| ==> r[k] == at[order[k]]
  {
    seq(|order|, k requires 0 <= k < |order| => at[order[k]])
  }

  lemma PlacesDiffer(at: seq<nat>, order: seq<nat>)
    requires Below(order, |at|) && NoRepeats(at) && NoRepeats(order)
    ensures NoRepeats(PlacesOf(at, order))
  {
    var places := PlacesOf(at, order);
    forall j, k | 0 <= j < k < |places|
      ensures places[j] != places[k]
    {
      assert order[j] != order[k];
    }
  }

  lemma GainsReturn(s: State, changes: seq<StakeChange>, at: seq<nat>, order: seq<nat>, t: State, t': State, r: State)
    requires Invariant(s) && s.pool.lastUpdate == s.epoch && Independent(s, changes, at)
    requires Below(order, |changes|) && NoRepeats(order) && AllFullyDelegated(s, at, order)
    requires Underway(s, t, changes, at, order) && Quiet(t, t') && Swept(t', r, |t'.validators|)
    ensures AllLevelled(s, r, changes, at, order)
    ensures r.reserve >= t'.reserve + Sum(Select(Returns(changes, s.chain.stakeRent), order))
  {
    var places, returns' := PlacesOf(at, order), Select(Returns(changes, s.chain.stakeRent), order);
    forall k | 0 <= k < |order|
      ensures places[k] < |s.validators| && places[k] < |t'.validators| && places[k] < |r.validators|
      ensures Levelled(s, changes[order[k]], places[k], r.validators[places[k]])
      ensures EntryBalance(t'.validators[places[k]], t'.accounts)
              == EntryBalance(r.validators[places[k]], r.accounts) + returns'[k]
    {
      assert FullyDelegated(s, at[order[k]]);
      SettledAt(s, changes, at, order, t, t', r, k);
    }
    PlacesDiffer(at, order);
    GainsSelected(t', r, places, returns');
  }

  /**
   * The plan comes to what it was made for. After any selection of its changes, in any order, an epoch
   * boundary that changes nothing and the full merging update of the next epoch, every validator moved
   * holds exactly its old stake plus what was planned, with nothing in transit, and the reserve has paid
   * the raises only and got every cut, and every rent, back.
   */
  lemma PlanComesTrue(s: State, activated: map<Pubkey, nat>, distributable: nat, cap: nat, usable: nat, retained: nat,
                      order: seq<nat>, epoch: nat)
    returns (run: seq<State>, r: State)
    requires Ready(s) && s.epoch < epoch < EPOCH_MAX
    requires var plan := Plan(s.validators, activated, distributable, cap, usable, s.chain.stakeRent);
             && Funded(s, plan, usable, retained) && Below(order, |plan|) && NoRepeats(order)
             && SeedsLeft(s, Places(s, plan), order) && AllFullyDelegated(s, Places(s, plan), order)
    ensures var plan := Plan(s.validators, activated, distributable, cap, usable, s.chain.stakeRent);
            && Executed(s, plan, Places(s, plan), order, run)
            && var next := run[|order|].(epoch := epoch);
               && EpochBoundary(run[|order|], next)
               && Came(next, UpdateStakePool(next.validators, false), r) && Invariant(r)
               && AllLevelled(s, r, plan, Places(s, plan), order)
               && r.reserve + Sum(Select(Raises(plan), order)) >= s.reserve + Sum(Select(Cuts(plan), order))
  {
    var plan := Plan(s.validators, activated, distributable, cap, usable, s.chain.stakeRent);
    PlanIsIndependent(s, activated, distributable, cap, usable, retained);
    run := PlanExecutes(s, activated, distributable, cap, usable, retained, order);
    var t := run[|order|];
    var next := t.(epoch := epoch);
    QuietKeeps(t, next);
    r := PlanSweeps(next, ChunkCount(|next.validators|));
    GainsReturn(s, plan, Places(s, plan), order, t, next, r);
    SpendingAndReturns(plan, s.chain.stakeRent, order);
  }
}
