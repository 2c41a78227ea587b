/** What an update of the list does to each entry it covers, with and without merging. */
module Refreshing {
  import opened Base
  import opened World
  import opened ListUpdate
  import opened ChunkUpdate
  import opened Handlers

  // ---------------------------------------------------------------------------------------
  // The exact effect of an update on an entry
  // ---------------------------------------------------------------------------------------

  /** Entry j and the accounts of s on their own; what the reserve holds plays no part in a refresh. */
  ghost function BooksOf(s: State, j: nat): Books
    requires j < |s.validators|
  {
    Books(s.validators[j], 0, s.accounts)
  }

  /** Entry j of s, refreshed on its own. */
  ghost function Fresh(s: State, j: nat, noMerge: bool): Books
    requires j < |s.validators|
  {
    RefreshBooks(BooksOf(s, j), s.epoch, noMerge)
  }

  /** In r entry j and its accounts are what refreshing them in s gives. */
  ghost predicate RefreshedFrom(s: State, r: State, j: nat, noMerge: bool) {
    && j < |s.validators| && j < |r.validators|
    && r.validators[j] == Fresh(s, j, noMerge).entry
    && SameAt(Fresh(s, j, noMerge).accounts, r.accounts, s.validators[j].ValidatorAddress())
    && SameAt(Fresh(s, j, noMerge).accounts, r.accounts, s.validators[j].TransientAddress())
  }

  /** The same entry with the same two accounts. */
  ghost predicate Alike(b: Books, c: Books) {
    && b.entry == c.entry
    && SameAt(b.accounts, c.accounts, b.entry.ValidatorAddress())
    && SameAt(b.accounts, c.accounts, b.entry.TransientAddress())
  }

  lemma TransientIsLocal(b: Books, c: Books, epoch: nat, noMerge: bool)
    requires Alike(b, c)
    ensures Alike(RefreshTransient(b, epoch, noMerge).0, RefreshTransient(c, epoch, noMerge).0)
    ensures RefreshTransient(b, epoch, noMerge).1 == RefreshTransient(c, epoch, noMerge).1
  {
  }

  lemma ValidatorIsLocal(b: Books, c: Books, transientLamports: nat, epoch: nat, noMerge: bool)
    requires Alike(b, c)
    ensures Alike(RefreshValidator(b, transientLamports, epoch, noMerge).0,
                  RefreshValidator(c, transientLamports, epoch, noMerge).0)
    ensures RefreshValidator(b, transientLamports, epoch, noMerge).1
            == RefreshValidator(c, transientLamports, epoch, noMerge).1
  {
  }

  /** A refresh looks at nothing but the entry and its two accounts. */
  lemma RefreshIsLocal(b: Books, c: Books, epoch: nat, noMerge: bool)
    requires Alike(b, c)
    ensures Alike(RefreshBooks(b, epoch, noMerge), RefreshBooks(c, epoch, noMerge))
  {
    var (b1, transient) := RefreshTransient(b, epoch, noMerge);
    var (c1, _) := RefreshTransient(c, epoch, noMerge);
    TransientIsLocal(b, c, epoch, noMerge);
    ValidatorIsLocal(b1, c1, transient, epoch, noMerge);
  }

  lemma EntryRefreshed(s: State, m: State, j: nat, pair: AccountPair, noMerge: bool)
    requires LeftAlone(s, m, j) && m.epoch == s.epoch && Matches(m.validators[j], pair)
    ensures RefreshedFrom(s, RefreshEntry(m, j, pair, noMerge), j, noMerge)
  {
    var b, c := Books(s.validators[j], 0, s.accounts), Books(m.validators[j], m.reserve, m.accounts);
    RefreshIsLocal(b, c, s.epoch, noMerge);
  }

  lemma RefreshedStays(s: State, m: State, r: State, j: nat, noMerge: bool)
    requires RefreshedFrom(s, m, j, noMerge) && LeftAlone(m, r, j)
    ensures RefreshedFrom(s, r, j, noMerge)
  {
  }

  /** The states of a chunk update, one after the other. */
  lemma {:induction false} ChunkVisits(s: State, start: nat, pairs: seq<AccountPair>, noMerge: bool)
    returns (states: seq<State>)
    requires start + |pairs| <= |s.validators|
    ensures Visits(states, start, pairs, noMerge) && states[0] == s
    ensures |states[|pairs|].validators| == |s.validators|
    decreases |pairs|
  {
    if pairs == [] {
      states := [s];
    } else {
      var last := |pairs| - 1;
      var front := ChunkVisits(s, start, pairs[..last], noMerge);
      var next := RefreshEntry(front[last], start + last, pairs[last], noMerge);
      VisitsOn(front, start, pairs[..last], noMerge, pairs[last], next);
      assert pairs[..last] + [pairs[last]] == pairs;
      states := front + [next];
    }
  }

  lemma VisitConfines(states: seq<State>, start: nat, pairs: seq<AccountPair>, noMerge: bool, n: nat)
    requires Visits(states, start, pairs, noMerge) && n < |pairs| && Distinct(states[n].validators)
    ensures Distinct(states[n + 1].validators) && states[n + 1].epoch == states[n].epoch
    ensures |states[n + 1].validators| == |states[n].validators|
  {
    assert VisitAt(states, start, pairs, noMerge, n);
    RefreshEntryConfined(states[n], start + n, pairs[n], noMerge);
    ConfinedConserves(states[n], states[n + 1], start + n, pairs[n]);
  }

  lemma VisitLeaves(states: seq<State>, start: nat, pairs: seq<AccountPair>, noMerge: bool, n: nat, j: nat)
    requires Visits(states, start, pairs, noMerge) && n < |pairs| && Distinct(states[n].validators)
    requires j < |states[n].validators| && j != start + n
    ensures LeftAlone(states[n], states[n + 1], j)
  {
    assert VisitAt(states, start, pairs, noMerge, n);
    RefreshEntryConfined(states[n], start + n, pairs[n], noMerge);
    OtherEntryLeftAlone(states[n], states[n + 1], j, start + n, states[n + 1].validators[start + n]);
  }

  lemma {:induction false} VisitsKeep(states: seq<State>, start: nat, pairs: seq<AccountPair>, noMerge: bool, n: nat)
    requires Visits(states, start, pairs, noMerge) && n <= |pairs| && Distinct(states[0].validators)
    ensures Distinct(states[n].validators) && states[n].epoch == states[0].epoch
    ensures |states[n].validators| == |states[0].validators|
  {
    if n > 0 {
      VisitsKeep(states, start, pairs, noMerge, n - 1);
      VisitConfines(states, start, pairs, noMerge, n - 1);
    }
  }

  /** Between two states no entry is touched but those whose turn it was. */
  lemma {:induction false} VisitsLeave(states: seq<State>, start: nat, pairs: seq<AccountPair>, noMerge: bool,
                                       a: nat, b: nat, j: nat)
    requires Visits(states, start, pairs, noMerge) && a <= b <= |pairs| && Distinct(states[0].validators)
    requires j < |states[0].validators| && !(start + a <= j < start + b)
    ensures LeftAlone(states[a], states[b], j)
    decreases b - a
  {
    VisitsKeep(states, start, pairs, noMerge, a);
    if a < b {
      VisitsLeave(states, start, pairs, noMerge, a, b - 1, j);
      VisitsKeep(states, start, pairs, noMerge, b - 1);
      VisitLeaves(states, start, pairs, noMerge, b - 1, j);
    }
  }

  lemma ChunkRefreshes(s: State, start: nat, pairs: seq<AccountPair>, noMerge: bool, j: nat)
    requires Distinct(s.validators) && start + |pairs| <= |s.validators| && j < |s.validators|
    requires Covered(s, start, pairs, |pairs|, j)
    ensures RefreshedFrom(s, RefreshChunk(s, start, pairs, noMerge), j, noMerge)
  {
    var states := ChunkVisits(s, start, pairs, noMerge);
    var n := j - start;
    VisitsChunk(states, start, pairs, noMerge);
    VisitRefreshes(states, start, pairs, noMerge, n);
    VisitsLeave(states, start, pairs, noMerge, n + 1, |pairs|, j);
    RefreshedStays(s, states[n + 1], states[|pairs|], j, noMerge);
  }

  lemma VisitRefreshes(states: seq<State>, start: nat, pairs: seq<AccountPair>, noMerge: bool, n: nat)
    requires Visits(states, start, pairs, noMerge) && n < |pairs| && Distinct(states[0].validators)
    requires Matches(states[0].validators[start + n], pairs[n])
    ensures RefreshedFrom(states[0], states[n + 1], start + n, noMerge)
  {
    VisitsLeave(states, start, pairs, noMerge, 0, n, start + n);
    VisitsKeep(states, start, pairs, noMerge, n);
    assert VisitAt(states, start, pairs, noMerge, n);
    EntryRefreshed(states[0], states[n], start + n, pairs[n], noMerge);
  }

  // ---------------------------------------------------------------------------------------
  // What becomes of the two stakes of an entry
  // ---------------------------------------------------------------------------------------

  /** A stake account the pool may use. */
  ghost predicate Held(accounts: Accounts, a: Address) {
    a in accounts && accounts[a].usable && !accounts[a].state.NotAStake?
  }

  /** Not staked: never delegated, cooled down since an earlier epoch, or stopped in the epoch it was started in. */
  ghost predicate Idle(state: StakeState, epoch: nat) {
    && !state.NotAStake?
    && (state.Delegated? ==> state.deactivation < epoch || state.activation == state.deactivation == epoch)
  }

  /** Delegated since an earlier epoch. */
  ghost predicate Warm(state: StakeState, epoch: nat) {
    state.Delegated? && state.activation < epoch
  }

  /** The record shows transient stake and there is an account behind it. */
  ghost predicate InTransit(b: Books) {
    b.entry.transient != 0 && Held(b.accounts, b.entry.TransientAddress())
  }

  /** Transient stake that goes back to the reserve. */
  ghost predicate TransientReturns(b: Books, epoch: nat, noMerge: bool) {
    !noMerge && InTransit(b) && Idle(b.accounts[b.entry.TransientAddress()].state, epoch)
  }

  /** Transient stake that joins the validator's: both are warm and the entry is not marked for removal. */
  ghost predicate TransientJoins(b: Books, epoch: nat, noMerge: bool) {
    var va, ta := b.entry.ValidatorAddress(), b.entry.TransientAddress();
    && !noMerge && InTransit(b) && !Idle(b.accounts[ta].state, epoch) && b.entry.status == Active
    && Warm(b.accounts[ta].state, epoch) && va in b.accounts && Warm(b.accounts[va].state, epoch)
  }

  ghost predicate AwaitsValidator(status: StakeStatus) {
    status == DeactivatingValidator || status == DeactivatingAll
  }

  ghost predicate AwaitsTransient(status: StakeStatus) {
    status == DeactivatingTransient || status == DeactivatingAll
  }

  /** Validator stake that goes back to the reserve because its entry is being removed. */
  ghost predicate ValidatorReturns(b: Books, epoch: nat, noMerge: bool) {
    var va := b.entry.ValidatorAddress();
    !noMerge && Held(b.accounts, va) && Idle(b.accounts[va].state, epoch) && AwaitsValidator(b.entry.status)
  }

  /** A transient account that stays; one of an entry marked for removal is stopped now if it was still running. */
  ghost function Stopped(account: StakeAccount, status: StakeStatus, epoch: nat, noMerge: bool): StakeAccount {
    if !noMerge && status != Active && account.state.Delegated? && account.state.deactivation == EPOCH_MAX then
      account.(state := account.state.(deactivation := epoch))
    else account
  }

  ghost predicate TransientFate(b: Books, epoch: nat, noMerge: bool, e': ValidatorStakeInfo, accounts': Accounts) {
    var ta := b.entry.TransientAddress();
    if !InTransit(b) then e'.transient == 0 && SameAt(b.accounts, accounts', ta)
    else if TransientReturns(b, epoch, noMerge) || TransientJoins(b, epoch, noMerge) then
      e'.transient == 0 && ta !in accounts'
    else
      && e'.transient == b.accounts[ta].lamports && ta in accounts'
      && accounts'[ta] == Stopped(b.accounts[ta], b.entry.status, epoch, noMerge)
  }

  /** What the transient stake brings to the validator account: lamports and delegation. */
  ghost function Brought(b: Books, epoch: nat, noMerge: bool): (r: (nat, nat))
  {
    if TransientJoins(b, epoch, noMerge) then
      var account := b.accounts[b.entry.TransientAddress()];
      (account.lamports, account.state.stake)
    else (0, 0)
  }

  /** What of a delegated validator account is not excess: its delegation and its rent. */
  ghost function LeftInAccount(account: StakeAccount, brought: (nat, nat)): nat
    requires account.state.Delegated?
  {
    Min(account.lamports + brought.0, account.state.stake + brought.1 + account.rent)
  }

  ghost predicate ValidatorFate(b: Books, epoch: nat, noMerge: bool, e': ValidatorStakeInfo, accounts': Accounts) {
    var va := b.entry.ValidatorAddress();
    if !Held(b.accounts, va) then
      e'.active == 0 && (!TransientJoins(b, epoch, noMerge) ==> SameAt(b.accounts, accounts', va))
    else if b.accounts[va].state.Initialized? || ValidatorReturns(b, epoch, noMerge) then
      e'.active == 0 && va !in accounts'
    else
      var account, brought := b.accounts[va], Brought(b, epoch, noMerge);
      var left := LeftInAccount(account, brought);
      && e'.active == (if b.entry.status == Active || AwaitsValidator(b.entry.status) then left else 0)
      && Balance(accounts', va) == left
      && (va in accounts' ==>
            accounts'[va] == account.(lamports := left,
                                      state := account.state.(stake := account.state.stake + brought.1)))
  }

  /** Marked entries tick off what has returned; a validator account found undelegated ends the entry's service. */
  ghost predicate StatusFate(b: Books, epoch: nat, noMerge: bool, e': ValidatorStakeInfo) {
    var va, was, now := b.entry.ValidatorAddress(), b.entry.status, e'.status;
    if Held(b.accounts, va) && b.accounts[va].state.Initialized? then
      now == if e'.transient != 0 then DeactivatingTransient else ReadyForRemoval
    else
      && (now == Active <==> was == Active)
      && (AwaitsValidator(now) <==> AwaitsValidator(was) && !ValidatorReturns(b, epoch, noMerge))
      && (AwaitsTransient(now) <==> AwaitsTransient(was) && !TransientReturns(b, epoch, noMerge))
  }

  /** The entry and its accounts after a refresh, whatever state they were in before. */
  ghost predicate Followed(b: Books, epoch: nat, noMerge: bool, e': ValidatorStakeInfo, accounts': Accounts) {
    && TransientFate(b, epoch, noMerge, e', accounts')
    && ValidatorFate(b, epoch, noMerge, e', accounts')
    && StatusFate(b, epoch, noMerge, e')
    && e'.lastUpdate == epoch && SameIdentity(b.entry, e')
  }

  lemma TransientFollows(b: Books, epoch: nat, noMerge: bool)
    ensures var r := RefreshBooks(b, epoch, noMerge); TransientFate(b, epoch, noMerge, r.entry, r.accounts)
  {
  }

  /** Before the validator account is looked at, the transient stake may have joined it. */
  lemma ValidatorMeets(b: Books, epoch: nat, noMerge: bool)
    ensures var (b1, _) := RefreshTransient(b, epoch, noMerge);
            var va := b.entry.ValidatorAddress();
            var brought := Brought(b, epoch, noMerge);
            && (AwaitsValidator(b1.entry.status) <==> AwaitsValidator(b.entry.status))
            && (b1.entry.status == Active <==> b.entry.status == Active)
            && (!TransientJoins(b, epoch, noMerge) ==> SameAt(b.accounts, b1.accounts, va))
            && (TransientJoins(b, epoch, noMerge) ==>
                  && va in b.accounts && b.accounts[va].state.Delegated? && va in b1.accounts
                  && var account := b.accounts[va];
                     b1.accounts[va] == account.(lamports := account.lamports + brought.0,
                                                 state := account.state.(stake := account.state.stake + brought.1)))
  {
  }

  lemma ValidatorFollows(b: Books, epoch: nat, noMerge: bool)
    ensures var r := RefreshBooks(b, epoch, noMerge); ValidatorFate(b, epoch, noMerge, r.entry, r.accounts)
  {
    var (b1, transient) := RefreshTransient(b, epoch, noMerge);
    ValidatorMeets(b, epoch, noMerge);
    var va := b.entry.ValidatorAddress();
    if Held(b1.accounts, va) && b1.accounts[va].state.Delegated? {
      ExcessIsBeyond(b1.accounts[va]);
    }
  }

  lemma ExcessIsBeyond(account: StakeAccount)
    requires account.state.Delegated?
    ensures account.lamports - Excess(account) == Min(account.lamports, account.state.stake + account.rent)
  {
  }

  lemma StatusFollows(b: Books, epoch: nat, noMerge: bool)
    ensures var r := RefreshBooks(b, epoch, noMerge); StatusFate(b, epoch, noMerge, r.entry)
  {
  }

  lemma RefreshFollows(b: Books, epoch: nat, noMerge: bool)
    ensures var r := RefreshBooks(b, epoch, noMerge); Followed(b, epoch, noMerge, r.entry, r.accounts)
  {
    TransientFollows(b, epoch, noMerge);
    ValidatorFollows(b, epoch, noMerge);
    StatusFollows(b, epoch, noMerge);
  }

  lemma FollowedAlike(b: Books, epoch: nat, noMerge: bool, e': ValidatorStakeInfo, one: Accounts, other: Accounts)
    requires Followed(b, epoch, noMerge, e', one)
    requires SameAt(one, other, b.entry.ValidatorAddress()) && SameAt(one, other, b.entry.TransientAddress())
    ensures Followed(b, epoch, noMerge, e', other)
  {
  }

  /**
   * An update of part of the list succeeds exactly if the part exists. Every entry that is supplied with
   * its own accounts goes the way of its two stakes; every other entry, and its accounts, stay as they were.
   */
  lemma UpdateFollows(s: State, start: nat, pairs: seq<AccountPair>, noMerge: bool)
    requires Distinct(s.validators)
    ensures var r := UpdateList(s, start, pairs, noMerge);
            && (r.Ok? <==> start + |pairs| <= |s.validators|)
            && (r.Ok? ==>
                  && |r.value.validators| == |s.validators|
                  && forall j :: 0 <= j < |s.validators| ==> UpdatedAt(s, start, pairs, noMerge, r.value, j))
  {
    if start + |pairs| <= |s.validators| {
      var s' := RefreshChunk(s, start, pairs, noMerge);
      RefreshChunkConserves(s, start, pairs, noMerge);
      forall j | 0 <= j < |s.validators|
        ensures UpdatedAt(s, start, pairs, noMerge, s', j)
      {
        assert Tracked(s, s', j, Covered(s, start, pairs, |pairs|, j));
        if Covered(s, start, pairs, |pairs|, j) {
          CoveredFollows(s, start, pairs, noMerge, j);
        }
      }
    }
  }

  ghost predicate UpdatedAt(s: State, start: nat, pairs: seq<AccountPair>, noMerge: bool, s': State, j: nat)
    requires j < |s.validators| == |s'.validators|
  {
    if Covered(s, start, pairs, |pairs|, j) then
      Followed(BooksOf(s, j), s.epoch, noMerge, s'.validators[j], s'.accounts)
    else LeftAlone(s, s', j)
  }

  lemma CoveredFollows(s: State, start: nat, pairs: seq<AccountPair>, noMerge: bool, j: nat)
    requires Distinct(s.validators) && start + |pairs| <= |s.validators| && j < |s.validators|
    requires Covered(s, start, pairs, |pairs|, j)
    ensures UpdatedAt(s, start, pairs, noMerge, RefreshChunk(s, start, pairs, noMerge), j)
  {
    var b, s' := BooksOf(s, j), RefreshChunk(s, start, pairs, noMerge);
    ChunkRefreshes(s, start, pairs, noMerge, j);
    RefreshFollows(b, s.epoch, noMerge);
    FollowedAlike(b, s.epoch, noMerge, s'.validators[j], Fresh(s, j, noMerge).accounts, s'.accounts);
  }

  /**
   * Without merging no stake moves: transient accounts stay and are only counted, and a delegated validator
   * account gives up no more than what exceeds its delegation and its rent, with the status as it was.
   */
  lemma NoMergeLeavesStake(s: State, start: nat, pairs: seq<AccountPair>, s': State, j: nat)
    requires Distinct(s.validators) && UpdateList(s, start, pairs, true) == Ok(s')
    requires j < |s.validators| && Covered(s, start, pairs, |pairs|, j)
    ensures |s'.validators| == |s.validators|
    ensures var e, e' := s.validators[j], s'.validators[j];
            var va, ta := e.ValidatorAddress(), e.TransientAddress();
            && SameAt(s.accounts, s'.accounts, ta)
            && (e.transient != 0 && Held(s.accounts, ta) ==> e'.transient == s.accounts[ta].lamports)
            && (Held(s.accounts, va) && s.accounts[va].state.Delegated? ==>
                  var left := Min(s.accounts[va].lamports, s.accounts[va].state.stake + s.accounts[va].rent);
                  && e'.status == e.status && Balance(s'.accounts, va) == left
                  && (left > 0 ==> va in s'.accounts && s'.accounts[va] == s.accounts[va].(lamports := left)))
  {
    UpdateFollows(s, start, pairs, true);
    assert UpdatedAt(s, start, pairs, true, s', j);
  }
}
