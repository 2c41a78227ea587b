/** Refreshing validator entries against their stake accounts, as `UpdateValidatorListBalance` does. */
module ListUpdate {
  import opened Base
  import opened World

  /** What the refresh of one entry touches. */
  datatype Books = Books(entry: ValidatorStakeInfo, reserve: nat, accounts: Accounts)
  {
    /** Merge an account into the reserve: all its lamports move and it is gone. */
    function MergeIntoReserve(a: Address): Books {
      this.(reserve := reserve + Balance(accounts, a), accounts := accounts - {a})
    }

    function WithStatus(status: StakeStatus): Books {
      this.(entry := entry.(status := status))
    }
  }

  /** Merge an active stake into another one; the source's rent is not delegated. */
  function MergeStake(accounts: Accounts, source: Address, target: Address): Accounts
    requires source in accounts && target in accounts && source != target
    requires accounts[source].state.Delegated? && accounts[target].state.Delegated?
  {
    var from, to := accounts[source], accounts[target];
    (accounts - {source})[target :=
      to.(lamports := to.lamports + from.lamports,
          state := to.state.(stake := to.state.stake + from.state.stake))]
  }

  /** The transient stake of an entry: merged, deactivated or just counted. */
  function RefreshTransient(b: Books, epoch: nat, noMerge: bool): (r: (Books, nat))
    ensures r.0.entry == b.entry.(status := r.0.entry.status)
  {
    var e := b.entry;
    var ta := e.TransientAddress();
    if e.transient == 0 || ta !in b.accounts then (b, 0)
    else
      var account := b.accounts[ta];
      if account.state.NotAStake? || !account.usable then (b, 0)
      else if noMerge then (b, account.lamports)
      else if account.state.Initialized? || Inactive(account.state, epoch) then
        (b.MergeIntoReserve(ta).WithStatus(e.status.RemoveTransientStake()), 0)
      else if e.status == Active then
        var va := e.ValidatorAddress();
        if account.state.activation < epoch && va in b.accounts && b.accounts[va].state.Delegated?
           && b.accounts[va].state.activation < epoch
        then (b.(accounts := MergeStake(b.accounts, ta, va)), 0)
        else (b, account.lamports)
      else if account.state.deactivation == EPOCH_MAX then
        (b.(accounts := b.accounts[ta := account.(state := account.state.(deactivation := epoch))]), account.lamports)
      else (b, account.lamports)
  }

  /** Lamports of a delegated account beyond its delegation and its rent. */
  function Excess(account: StakeAccount): (n: nat)
    requires account.state.Delegated?
    ensures n <= account.lamports
  {
    SatSub(SatSub(account.lamports, account.state.stake), account.rent)
  }

  /** The validator stake of an entry, after its transient stake left `transientLamports`. */
  function RefreshValidator(b: Books, transientLamports: nat, epoch: nat, noMerge: bool): (r: (Books, nat))
    ensures r.0.entry == b.entry.(status := r.0.entry.status)
  {
    var e := b.entry;
    var va := e.ValidatorAddress();
    if va !in b.accounts || !b.accounts[va].usable || b.accounts[va].state.NotAStake? then (b, 0)
    else
      var account := b.accounts[va];
      if account.state.Initialized? then
        var status := if transientLamports != 0 then DeactivatingTransient else ReadyForRemoval;
        (b.MergeIntoReserve(va).WithStatus(status), 0)
      else
        var excess := Excess(account);
        var left := account.lamports - excess;
        var b1 := b.(reserve := b.reserve + excess, accounts := Put(b.accounts, va, account.(lamports := left)));
        match e.status
        case Active => (b1, left)
        case DeactivatingValidator | DeactivatingAll =>
          if !noMerge && Inactive(account.state, epoch) then
            (b1.MergeIntoReserve(va).WithStatus(e.status.RemoveValidatorStake()), 0)
          else (b1, left)
        case DeactivatingTransient | ReadyForRemoval => (b1, 0)
  }

  function RefreshBooks(b: Books, epoch: nat, noMerge: bool): (r: Books)
    ensures r.entry.vote == b.entry.vote
    ensures r.entry.validatorSeed == b.entry.validatorSeed && r.entry.transientSeed == b.entry.transientSeed
    ensures r.entry.unused == b.entry.unused
  {
    var (b1, transient) := RefreshTransient(b, epoch, noMerge);
    var (b2, active) := RefreshValidator(b1, transient, epoch, noMerge);
    b2.(entry := b2.entry.(lastUpdate := epoch, active := active, transient := transient))
  }

  /** The pair of accounts an instruction supplies for one entry. */
  type AccountPair = (Address, Address)

  predicate Matches(e: ValidatorStakeInfo, pair: AccountPair) {
    pair.0 == e.ValidatorAddress() && pair.1 == e.TransientAddress()
  }

  /** Refresh entry i if the supplied accounts are its own; otherwise skip it. */
  function RefreshEntry(s: State, i: nat, pair: AccountPair, noMerge: bool): (r: State)
    requires i < |s.validators|
    ensures |r.validators| == |s.validators|
  {
    if !Matches(s.validators[i], pair) then s
    else
      var b := RefreshBooks(Books(s.validators[i], s.reserve, s.accounts), s.epoch, noMerge);
      s.(validators := s.validators[i := b.entry], reserve := b.reserve, accounts := b.accounts)
  }

  /** Refresh the entries `start .. start + |pairs|` in order. */
  function RefreshChunk(s: State, start: nat, pairs: seq<AccountPair>, noMerge: bool): (r: State)
    requires start + |pairs| <= |s.validators|
    ensures |r.validators| == |s.validators|
    decreases |pairs|
  {
    if pairs == [] then s
    else
      var last := |pairs| - 1;
      RefreshEntry(RefreshChunk(s, start, pairs[..last], noMerge), start + last, pairs[last], noMerge)
  }

  /** The states a loop over the pairs passes through. */
  ghost predicate Visits(states: seq<State>, start: nat, pairs: seq<AccountPair>, noMerge: bool) {
    && |states| == |pairs| + 1 && start + |pairs| <= |states[0].validators|
    && (forall k :: 0 <= k < |pairs| ==> VisitAt(states, start, pairs, noMerge, k))
  }

  ghost predicate VisitAt(states: seq<State>, start: nat, pairs: seq<AccountPair>, noMerge: bool, k: nat)
    requires k < |pairs| && |states| == |pairs| + 1
  {
    start + k < |states[k].validators| && states[k + 1] == RefreshEntry(states[k], start + k, pairs[k], noMerge)
  }

  lemma VisitsOn(states: seq<State>, start: nat, pairs: seq<AccountPair>, noMerge: bool, pair: AccountPair, next: State)
    requires Visits(states, start, pairs, noMerge) && start + |pairs| < |states[0].validators|
    requires start + |pairs| < |states[|pairs|].validators|
    requires next == RefreshEntry(states[|pairs|], start + |pairs|, pair, noMerge)
    ensures Visits(states + [next], start, pairs + [pair], noMerge)
  {
    forall k | 0 <= k < |pairs + [pair]|
      ensures VisitAt(states + [next], start, pairs + [pair], noMerge, k)
    {
      assert k < |pairs| ==> VisitAt(states, start, pairs, noMerge, k);
    }
  }

  /** The loop ends in the state the chunk transition gives. */
  lemma {:induction false} VisitsChunk(states: seq<State>, start: nat, pairs: seq<AccountPair>, noMerge: bool)
    requires Visits(states, start, pairs, noMerge)
    ensures states[|pairs|] == RefreshChunk(states[0], start, pairs, noMerge)
    decreases |pairs|
  {
    if pairs != [] {
      var last := |pairs| - 1;
      var states', pairs' := states[..last + 1], pairs[..last];
      forall k | 0 <= k < last
        ensures VisitAt(states', start, pairs', noMerge, k)
      {
        assert VisitAt(states, start, pairs, noMerge, k);
      }
      VisitsChunk(states', start, pairs', noMerge);
      assert VisitAt(states, start, pairs, noMerge, last);
    }
  }

  // ---------------------------------------------------------------------------------------
  // One entry
  // ---------------------------------------------------------------------------------------

  /** Nothing but the two accounts of the entry may change. */
  ghost predicate OnlyAt(before: Accounts, after: Accounts, e: ValidatorStakeInfo) {
    forall a {:trigger a in before} {:trigger a in after} ::
      a != e.ValidatorAddress() && a != e.TransientAddress() ==>
        (a in before <==> a in after) && (a in before ==> before[a] == after[a])
  }

  /** Lamports moved between the reserve and the accounts of one entry, none created or destroyed. */
  ghost predicate Conserved(before: Books, after: Books, e: ValidatorStakeInfo) {
    && after.reserve + EntryBalance(e, after.accounts) == before.reserve + EntryBalance(e, before.accounts)
    && before.reserve <= after.reserve
    && OnlyAt(before.accounts, after.accounts, e)
    && after.accounts.Keys <= before.accounts.Keys
  }

  lemma RefreshTransientConserves(b: Books, epoch: nat, noMerge: bool)
    ensures Conserved(b, RefreshTransient(b, epoch, noMerge).0, b.entry)
  {
  }

  lemma RefreshValidatorConserves(b: Books, transientLamports: nat, epoch: nat, noMerge: bool)
    ensures Conserved(b, RefreshValidator(b, transientLamports, epoch, noMerge).0, b.entry)
  {
  }

  /** The refresh of an entry conserves lamports, whatever state its accounts are in. */
  lemma RefreshConserves(b: Books, epoch: nat, noMerge: bool)
    ensures Conserved(b, RefreshBooks(b, epoch, noMerge), b.entry)
  {
    var (b1, transient) := RefreshTransient(b, epoch, noMerge);
    RefreshTransientConserves(b, epoch, noMerge);
    RefreshValidatorConserves(b1, transient, epoch, noMerge);
  }

  /** A pool account that behaves: funded, the pool's own, and a stake that pays rent. */
  ghost predicate SoundAccount(account: StakeAccount) {
    account.lamports > 0 && account.usable && account.rent > 0 && !account.state.NotAStake?
  }

  ghost predicate SoundAccounts(accounts: Accounts) {
    forall a {:trigger SoundAccount(accounts[a])} :: a in accounts ==> SoundAccount(accounts[a])
  }

  /** The status of an entry says exactly which of its accounts exist and which lamports it may show. */
  ghost predicate StatusKept(e: ValidatorStakeInfo, accounts: Accounts) {
    && (e.ValidatorAddress() in accounts <==> e.status != ReadyForRemoval && e.status != DeactivatingTransient)
    && (e.TransientAddress() in accounts <==> e.transient != 0)
    && (e.status == ReadyForRemoval || e.status == DeactivatingTransient ==> e.active == 0)
    && (e.status == ReadyForRemoval || e.status == DeactivatingValidator ==> e.transient == 0)
    && (e.status == DeactivatingTransient || e.status == DeactivatingAll ==> e.transient != 0)
  }

  /** The entry shows what its accounts hold, and an active one is delegated. */
  ghost predicate Agrees(e: ValidatorStakeInfo, accounts: Accounts) {
    && e.active == Balance(accounts, e.ValidatorAddress())
    && e.transient == Balance(accounts, e.TransientAddress())
    && (e.status == Active && e.ValidatorAddress() in accounts ==> accounts[e.ValidatorAddress()].state.Delegated?)
  }

  /** A status never promises lamports that the record still shows, whatever state the accounts are in. */
  lemma RefreshKeepsRecordedStatus(b: Books, epoch: nat, noMerge: bool)
    requires b.entry.status == ReadyForRemoval ==> b.entry.transient == 0
    requires b.entry.status == DeactivatingValidator ==> b.entry.transient == 0
    ensures var e := RefreshBooks(b, epoch, noMerge).entry;
            && (e.status == ReadyForRemoval ==> e.active == 0 && e.transient == 0)
            && (e.status == DeactivatingTransient ==> e.active == 0)
            && (e.status == DeactivatingValidator ==> e.transient == 0)
            && e.status.Rank() <= b.entry.status.Rank()
  {
  }

  lemma RefreshTransientAgrees(b: Books, epoch: nat, noMerge: bool)
    requires SoundAccounts(b.accounts) && StatusKept(b.entry, b.accounts)
    ensures var (r, transient) := RefreshTransient(b, epoch, noMerge);
            && SoundAccounts(r.accounts)
            && transient == Balance(r.accounts, b.entry.TransientAddress())
            && StatusKept(r.entry.(transient := transient), r.accounts)
            && (b.entry.ValidatorAddress() in r.accounts ==>
                  SoundAccount(r.accounts[b.entry.ValidatorAddress()]))
  {
    var va, ta := b.entry.ValidatorAddress(), b.entry.TransientAddress();
    var (r, transient) := RefreshTransient(b, epoch, noMerge);
    assert ta in b.accounts ==> SoundAccount(b.accounts[ta]);
    assert va in b.accounts ==> SoundAccount(b.accounts[va]);
    forall a | a in r.accounts
      ensures SoundAccount(r.accounts[a])
    {
      assert SoundAccount(b.accounts[a]);
    }
  }

  /** With sound accounts, a refreshed entry shows exactly what its accounts hold. */
  lemma RefreshAgrees(b: Books, epoch: nat, noMerge: bool)
    requires SoundAccounts(b.accounts) && StatusKept(b.entry, b.accounts)
    ensures var r := RefreshBooks(b, epoch, noMerge);
            SoundAccounts(r.accounts) && StatusKept(r.entry, r.accounts) && Agrees(r.entry, r.accounts)
  {
    var (b1, transient) := RefreshTransient(b, epoch, noMerge);
    RefreshTransientAgrees(b, epoch, noMerge);
    var r := RefreshBooks(b, epoch, noMerge);
    forall a | a in r.accounts
      ensures SoundAccount(r.accounts[a])
    {
      assert SoundAccount(b1.accounts[a]);
    }
  }
}
