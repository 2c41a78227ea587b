/** Refreshing a chunk of the validator list: conservation, agreement and the progress of removals. */
module ChunkUpdate {
  import opened Base
  import opened World
  import opened ListUpdate
  import opened Accounting

  /** The fields of an entry that a refresh never changes. */
  ghost predicate SameIdentity(e: ValidatorStakeInfo, e': ValidatorStakeInfo) {
    && e'.vote == e.vote && e'.validatorSeed == e.validatorSeed && e'.transientSeed == e.transientSeed
    && e'.unused == e.unused
  }

  ghost predicate SameAt(before: Accounts, after: Accounts, a: Address) {
    (a in before <==> a in after) && (a in before ==> before[a] == after[a])
  }

  /** Entry i stays in its place with its accounts untouched. */
  ghost predicate LeftAlone(s: State, s': State, i: nat) {
    && i < |s.validators| && i < |s'.validators|
    && s'.validators[i] == s.validators[i]
    && SameAt(s.accounts, s'.accounts, s.validators[i].ValidatorAddress())
    && SameAt(s.accounts, s'.accounts, s.validators[i].TransientAddress())
  }

  lemma OtherEntryLeftAlone(s: State, s': State, i: nat, k: nat, e': ValidatorStakeInfo)
    requires Distinct(s.validators) && i < |s.validators| && k < |s.validators| && i != k
    requires e'.vote == s.validators[k].vote
    requires s'.validators == s.validators[k := e']
    requires OnlyOwned(s.accounts, s'.accounts, s.validators[k], e')
    ensures LeftAlone(s, s', i)
  {
    var va, ta := s.validators[i].ValidatorAddress(), s.validators[i].TransientAddress();
    assert !Owns(s.validators[k], va) && !Owns(e', va) && !Owns(s.validators[k], ta) && !Owns(e', ta);
  }

  // ---------------------------------------------------------------------------------------
  // Removal
  // ---------------------------------------------------------------------------------------

  /** No stake, or one on its way out: deactivated by the given epoch, or not delegated at all. */
  ghost predicate Leaving(accounts: Accounts, a: Address, since: nat) {
    a in accounts ==>
      accounts[a].state.Initialized? || (accounts[a].state.Delegated? && accounts[a].state.deactivation <= since)
  }

  /** An entry marked for removal whose remaining stake is all on its way out. */
  ghost predicate Retired(e: ValidatorStakeInfo, accounts: Accounts, since: nat) {
    && e.status != Active
    && Leaving(accounts, e.ValidatorAddress(), since)
    && Leaving(accounts, e.TransientAddress(), since)
  }

  /** Entry i is ready for removal, its accounts are gone and the reserve has gained all they held. */
  ghost predicate Completed(s: State, r: State, i: nat)
    requires i < |s.validators|
  {
    && i < |r.validators|
    && r.validators[i].status == ReadyForRemoval && SameIdentity(s.validators[i], r.validators[i])
    && r.validators[i].ValidatorAddress() !in r.accounts && r.validators[i].TransientAddress() !in r.accounts
    && r.reserve >= s.reserve + EntryBalance(s.validators[i], s.accounts)
  }

  lemma RefreshKeepsRetired(b: Books, epoch: nat, noMerge: bool, since: nat)
    requires Retired(b.entry, b.accounts, since) && since < EPOCH_MAX
    ensures Retired(RefreshBooks(b, epoch, noMerge).entry, RefreshBooks(b, epoch, noMerge).accounts, since)
  {
    var (b1, transient) := RefreshTransient(b, epoch, noMerge);
    assert Retired(b1.entry, b1.accounts, since);
  }

  /** In a later epoch a merging refresh of a retired entry finishes its removal. */
  lemma RefreshCompletes(b: Books, epoch: nat, since: nat)
    requires SoundAccounts(b.accounts) && StatusKept(b.entry, b.accounts)
    requires Retired(b.entry, b.accounts, since) && since < epoch
    ensures var r := RefreshBooks(b, epoch, false);
            && r.entry.status == ReadyForRemoval
            && b.entry.ValidatorAddress() !in r.accounts && b.entry.TransientAddress() !in r.accounts
            && r.reserve == b.reserve + EntryBalance(b.entry, b.accounts)
  {
    var va, ta := b.entry.ValidatorAddress(), b.entry.TransientAddress();
    assert va in b.accounts ==> SoundAccount(b.accounts[va]);
    assert ta in b.accounts ==> SoundAccount(b.accounts[ta]);
  }

  // ---------------------------------------------------------------------------------------
  // One entry of a chunk
  // ---------------------------------------------------------------------------------------

  /** Every account that is left was there before, with the same rent, and at most deactivated now. */
  ghost predicate Aged(before: Accounts, after: Accounts, a: Address, epoch: nat) {
    a in after ==>
      && a in before
      && after[a].rent == before[a].rent
      && (after[a].state.Delegated? ==>
            before[a].state.Delegated?
            && (after[a].state.deactivation == before[a].state.deactivation || after[a].state.deactivation == epoch))
  }

  lemma RefreshAges(b: Books, epoch: nat, noMerge: bool)
    ensures Aged(b.accounts, RefreshBooks(b, epoch, noMerge).accounts, b.entry.ValidatorAddress(), epoch)
    ensures Aged(b.accounts, RefreshBooks(b, epoch, noMerge).accounts, b.entry.TransientAddress(), epoch)
  {
    var (b1, transient) := RefreshTransient(b, epoch, noMerge);
    assert Aged(b.accounts, b1.accounts, b.entry.ValidatorAddress(), epoch);
    assert Aged(b.accounts, b1.accounts, b.entry.TransientAddress(), epoch);
  }

  lemma AgedKeepsRegular(before: Accounts, after: Accounts, e: ValidatorStakeInfo, epoch: nat, rent: nat)
    requires RegularAccounts(before, rent, epoch) && OnlyAt(before, after, e)
    requires Aged(before, after, e.ValidatorAddress(), epoch) && Aged(before, after, e.TransientAddress(), epoch)
    ensures RegularAccounts(after, rent, epoch)
  {
    forall a | a in after
      ensures RegularAccount(after[a], rent, epoch)
    {
      assert Aged(before, after, a, epoch);
      assert RegularAccount(before[a], rent, epoch);
    }
  }

  lemma RefreshKeepsRegular(b: Books, epoch: nat, noMerge: bool, rent: nat)
    requires RegularAccounts(b.accounts, rent, epoch)
    ensures RegularAccounts(RefreshBooks(b, epoch, noMerge).accounts, rent, epoch)
  {
    RefreshConserves(b, epoch, noMerge);
    RefreshAges(b, epoch, noMerge);
    AgedKeepsRegular(b.accounts, RefreshBooks(b, epoch, noMerge).accounts, b.entry, epoch, rent);
  }

  lemma RefreshEntryKeepsInvariant(s: State, i: nat, pair: AccountPair, noMerge: bool)
    requires Invariant(s) && i < |s.validators|
    ensures Invariant(RefreshEntry(s, i, pair, noMerge))
  {
    if Matches(s.validators[i], pair) {
      var e := s.validators[i];
      var b := Books(e, s.reserve, s.accounts);
      var b' := RefreshBooks(b, s.epoch, noMerge);
      RefreshConserves(b, s.epoch, noMerge);
      RefreshKeepsRegular(b, s.epoch, noMerge, s.chain.stakeRent);
      assert SoundEntry(e, s.accounts, s.epoch);
      RefreshAgrees(b, s.epoch, noMerge);
      EntryChanged(s.validators, s.accounts, s.epoch, s.chain.stakeRent, i, b'.entry, b'.accounts);
      StakedChanged(s.validators, i, b'.entry);
    }
  }

  /** The bounds of what a refresh of entry k may do, in any state of its accounts. */
  ghost predicate Confined(m: State, r: State, k: nat, pair: AccountPair)
    requires k < |m.validators|
  {
    && |r.validators| == |m.validators|
    && r == m.(validators := m.validators[k := r.validators[k]], reserve := r.reserve, accounts := r.accounts)
    && SameIdentity(m.validators[k], r.validators[k])
    && (if Matches(m.validators[k], pair) then r.validators[k].lastUpdate == m.epoch else r == m)
    && OnlyOwned(m.accounts, r.accounts, m.validators[k], r.validators[k])
    && m.reserve <= r.reserve
    && r.reserve + EntryBalance(r.validators[k], r.accounts) == m.reserve + EntryBalance(m.validators[k], m.accounts)
  }

  /** What it does to the invariant and to a removal. */
  ghost predicate Orderly(m: State, r: State, k: nat, pair: AccountPair, noMerge: bool)
    requires k < |m.validators| && k < |r.validators|
  {
    && (Invariant(m) ==> Invariant(r) && r.validators[k].status.Rank() <= m.validators[k].status.Rank())
    && (forall since: nat :: since < EPOCH_MAX && Retired(m.validators[k], m.accounts, since) ==>
          && Retired(r.validators[k], r.accounts, since)
          && (Invariant(m) && Matches(m.validators[k], pair) && !noMerge && since < m.epoch ==> Completed(m, r, k)))
  }

  lemma RefreshEntryConfined(m: State, k: nat, pair: AccountPair, noMerge: bool)
    requires k < |m.validators|
    ensures Confined(m, RefreshEntry(m, k, pair, noMerge), k, pair)
  {
    RefreshConserves(Books(m.validators[k], m.reserve, m.accounts), m.epoch, noMerge);
  }

  lemma RefreshEntryRank(m: State, k: nat, pair: AccountPair, noMerge: bool)
    requires Invariant(m) && k < |m.validators|
    ensures RefreshEntry(m, k, pair, noMerge).validators[k].status.Rank() <= m.validators[k].status.Rank()
  {
    assert SoundEntry(m.validators[k], m.accounts, m.epoch);
    RefreshKeepsRecordedStatus(Books(m.validators[k], m.reserve, m.accounts), m.epoch, noMerge);
  }

  lemma RefreshEntryCompletes(m: State, k: nat, pair: AccountPair, since: nat)
    requires Invariant(m) && k < |m.validators| && Matches(m.validators[k], pair)
    requires Retired(m.validators[k], m.accounts, since) && since < m.epoch
    ensures Completed(m, RefreshEntry(m, k, pair, false), k)
  {
    EntryInOrder(m, k);
    RefreshCompletes(Books(m.validators[k], m.reserve, m.accounts), m.epoch, since);
  }

  lemma RefreshEntryOrderly(m: State, k: nat, pair: AccountPair, noMerge: bool)
    requires k < |m.validators|
    ensures Orderly(m, RefreshEntry(m, k, pair, noMerge), k, pair, noMerge)
  {
    var r := RefreshEntry(m, k, pair, noMerge);
    if Invariant(m) {
      RefreshEntryKeepsInvariant(m, k, pair, noMerge);
      RefreshEntryRank(m, k, pair, noMerge);
    }
    forall since: nat | since < EPOCH_MAX && Retired(m.validators[k], m.accounts, since)
      ensures Retired(r.validators[k], r.accounts, since)
      ensures Invariant(m) && Matches(m.validators[k], pair) && !noMerge && since < m.epoch ==> Completed(m, r, k)
    {
      if Matches(m.validators[k], pair) {
        RefreshKeepsRetired(Books(m.validators[k], m.reserve, m.accounts), m.epoch, noMerge, since);
        if Invariant(m) && !noMerge && since < m.epoch {
          RefreshEntryCompletes(m, k, pair, since);
        }
      }
    }
  }

  // ---------------------------------------------------------------------------------------
  // The states a chunk update passes through
  // ---------------------------------------------------------------------------------------

  /** The entry-by-entry states of a chunk update. */
  datatype Trace = Trace(states: seq<State>, start: nat, pairs: seq<AccountPair>, noMerge: bool) {
    ghost predicate RefreshedAt(k: nat)
      requires k < |pairs| && |states| == |pairs| + 1
    {
      && start + k < |states[k].validators|
      && Confined(states[k], states[k + 1], start + k, pairs[k])
      && Orderly(states[k], states[k + 1], start + k, pairs[k], noMerge)
    }

    ghost predicate Valid() {
      && |states| == |pairs| + 1
      && start + |pairs| <= |states[0].validators|
      && (forall k :: 0 <= k < |pairs| ==> RefreshedAt(k))
    }
  }

  lemma {:induction false} ChunkTrace(s: State, start: nat, pairs: seq<AccountPair>, noMerge: bool) returns (t: Trace)
    requires start + |pairs| <= |s.validators|
    ensures t.Valid() && t.start == start && t.pairs == pairs && t.noMerge == noMerge
    ensures t.states[0] == s && t.states[|pairs|] == RefreshChunk(s, start, pairs, noMerge)
    decreases |pairs|
  {
    if pairs == [] {
      t := Trace([s], start, pairs, noMerge);
    } else {
      var last := |pairs| - 1;
      var t0 := ChunkTrace(s, start, pairs[..last], noMerge);
      var m := RefreshChunk(s, start, pairs[..last], noMerge);
      var r := RefreshEntry(m, start + last, pairs[last], noMerge);
      RefreshEntryConfined(m, start + last, pairs[last], noMerge);
      RefreshEntryOrderly(m, start + last, pairs[last], noMerge);
      t := ExtendTrace(t0, pairs, m, r);
    }
  }

  lemma ExtendTrace(t0: Trace, pairs: seq<AccountPair>, m: State, r: State) returns (t: Trace)
    requires t0.Valid() && pairs != [] && t0.pairs == pairs[..|pairs| - 1] && t0.states[|pairs| - 1] == m
    requires t0.start + |pairs| <= |t0.states[0].validators| && t0.start + |pairs| <= |m.validators|
    requires Confined(m, r, t0.start + |pairs| - 1, pairs[|pairs| - 1])
    requires Orderly(m, r, t0.start + |pairs| - 1, pairs[|pairs| - 1], t0.noMerge)
    ensures t.Valid() && t == Trace(t0.states + [r], t0.start, pairs, t0.noMerge)
  {
    t := Trace(t0.states + [r], t0.start, pairs, t0.noMerge);
    forall k | 0 <= k < |pairs|
      ensures t.RefreshedAt(k)
    {
      if k < |pairs| - 1 {
        assert t0.RefreshedAt(k);
      }
    }
  }

  // ---------------------------------------------------------------------------------------
  // What a chunk update guarantees
  // ---------------------------------------------------------------------------------------

  lemma ConfinedConserves(m: State, r: State, k: nat, pair: AccountPair)
    requires Distinct(m.validators) && k < |m.validators| && Confined(m, r, k, pair)
    ensures Holdings(r) == Holdings(m) && Distinct(r.validators)
  {
    BalancesChanged(m.validators, m.accounts, k, r.validators[k], r.accounts);
  }

  /** Entry i, relative to the start of the update: same identity, and left alone unless refreshed. */
  ghost predicate Tracked(s: State, r: State, i: nat, refreshed: bool) {
    && |r.validators| == |s.validators| && i < |s.validators|
    && SameIdentity(s.validators[i], r.validators[i])
    && (if refreshed then r.validators[i].lastUpdate == s.epoch else LeftAlone(s, r, i))
  }

  /** Entry i is among the first n of the chunk and is supplied with its own accounts. */
  ghost predicate Covered(s: State, start: nat, pairs: seq<AccountPair>, n: nat, i: nat)
    requires n <= |pairs| && i < |s.validators|
  {
    start <= i < start + n && Matches(s.validators[i], pairs[i - start])
  }

  lemma TrackOne(t: Trace, n: nat, i: nat)
    requires t.Valid() && 0 < n <= |t.pairs| && Distinct(t.states[n - 1].validators) && i < |t.states[0].validators|
    requires t.states[n - 1].epoch == t.states[0].epoch
    requires Tracked(t.states[0], t.states[n - 1], i, Covered(t.states[0], t.start, t.pairs, n - 1, i))
    ensures Tracked(t.states[0], t.states[n], i, Covered(t.states[0], t.start, t.pairs, n, i))
  {
    var k, m, r := t.start + n - 1, t.states[n - 1], t.states[n];
    assert t.RefreshedAt(n - 1);
    if i != k {
      OtherEntryLeftAlone(m, r, i, k, r.validators[k]);
    }
  }

  lemma {:induction false} TraceConserves(t: Trace, n: nat)
    requires t.Valid() && n <= |t.pairs| && Distinct(t.states[0].validators)
    ensures var s, r := t.states[0], t.states[n];
            && Holdings(r) == Holdings(s) && Distinct(r.validators) && s.reserve <= r.reserve
            && r == s.(validators := r.validators, reserve := r.reserve, accounts := r.accounts)
            && (forall i {:trigger Covered(s, t.start, t.pairs, n, i)} :: 0 <= i < |s.validators| ==>
                  Tracked(s, r, i, Covered(s, t.start, t.pairs, n, i)))
  {
    if n > 0 {
      var s, m, r := t.states[0], t.states[n - 1], t.states[n];
      TraceConserves(t, n - 1);
      assert t.RefreshedAt(n - 1);
      ConfinedConserves(m, r, t.start + n - 1, t.pairs[n - 1]);
      forall i | 0 <= i < |s.validators|
        ensures Tracked(s, r, i, Covered(t.states[0], t.start, t.pairs, n, i))
      {
        assert Tracked(s, m, i, Covered(t.states[0], t.start, t.pairs, n - 1, i));
        TrackOne(t, n, i);
      }
    } else {
      forall i | 0 <= i < |t.states[0].validators|
        ensures Tracked(t.states[0], t.states[0], i, Covered(t.states[0], t.start, t.pairs, 0, i))
      {
      }
    }
  }

  lemma {:induction false} TraceKeepsInvariant(t: Trace, n: nat)
    requires t.Valid() && n <= |t.pairs| && Invariant(t.states[0])
    ensures Invariant(t.states[n])
    ensures |t.states[n].validators| == |t.states[0].validators|
    ensures forall i :: 0 <= i < |t.states[0].validators| ==>
              t.states[n].validators[i].status.Rank() <= t.states[0].validators[i].status.Rank()
  {
    if n > 0 {
      TraceKeepsInvariant(t, n - 1);
      assert t.RefreshedAt(n - 1);
    }
  }

  /** A removal under way at entry i: still as it was before its turn, complete after a merging one. */
  ghost predicate Progress(t: Trace, n: nat, i: nat, since: nat)
    requires t.Valid() && n <= |t.pairs| && i < |t.states[0].validators|
  {
    var s, r := t.states[0], t.states[n];
    && i < |r.validators| && Retired(r.validators[i], r.accounts, since)
    && (!(t.start <= i < t.start + n) ==> LeftAlone(s, r, i))
    && (Covered(t.states[0], t.start, t.pairs, n, i) && !t.noMerge && Invariant(s) && since < s.epoch ==>
          Completed(s, r, i))
  }

  lemma ProgressElsewhere(t: Trace, n: nat, i: nat, since: nat)
    requires t.Valid() && 0 < n <= |t.pairs| && i < |t.states[0].validators|
    requires Progress(t, n - 1, i, since) && LeftAlone(t.states[n - 1], t.states[n], i)
    requires i != t.start + n - 1 && t.states[n - 1].reserve <= t.states[n].reserve
    ensures Progress(t, n, i, since)
  {
  }

  lemma ProgressHere(t: Trace, n: nat, i: nat, since: nat)
    requires t.Valid() && 0 < n <= |t.pairs| && i < |t.states[0].validators|
    requires Progress(t, n - 1, i, since) && i == t.start + n - 1 && since < EPOCH_MAX
    requires t.states[0].reserve <= t.states[n - 1].reserve && t.states[n - 1].epoch == t.states[0].epoch
    requires Invariant(t.states[0]) ==> Invariant(t.states[n - 1])
    ensures Progress(t, n, i, since)
  {
    assert t.RefreshedAt(n - 1);
  }

  lemma ProgressStep(t: Trace, n: nat, i: nat, since: nat)
    requires t.Valid() && 0 < n <= |t.pairs| && Distinct(t.states[0].validators) && i < |t.states[0].validators|
    requires since < EPOCH_MAX && Progress(t, n - 1, i, since)
    ensures Progress(t, n, i, since)
  {
    var k, m, r := t.start + n - 1, t.states[n - 1], t.states[n];
    TraceConserves(t, n - 1);
    assert t.RefreshedAt(n - 1);
    if i == k {
      if Invariant(t.states[0]) {
        TraceKeepsInvariant(t, n - 1);
      }
      ProgressHere(t, n, i, since);
    } else {
      OtherEntryLeftAlone(m, r, i, k, r.validators[k]);
      ProgressElsewhere(t, n, i, since);
    }
  }

  lemma {:induction false} TraceProgress(t: Trace, n: nat, i: nat, since: nat)
    requires t.Valid() && n <= |t.pairs| && Distinct(t.states[0].validators) && i < |t.states[0].validators|
    requires Retired(t.states[0].validators[i], t.states[0].accounts, since) && since < EPOCH_MAX
    ensures Progress(t, n, i, since)
  {
    if n > 0 {
      TraceProgress(t, n - 1, i, since);
      ProgressStep(t, n, i, since);
    }
  }

  /** A chunk update conserves the pool's lamports and leaves all other entries and their accounts alone. */
  lemma RefreshChunkConserves(s: State, start: nat, pairs: seq<AccountPair>, noMerge: bool)
    requires Distinct(s.validators) && start + |pairs| <= |s.validators|
    ensures var r := RefreshChunk(s, start, pairs, noMerge);
            && Holdings(r) == Holdings(s)
            && r == s.(validators := r.validators, reserve := r.reserve, accounts := r.accounts)
            && (forall i {:trigger Covered(s, start, pairs, |pairs|, i)} :: 0 <= i < |s.validators| ==>
                  Tracked(s, r, i, Covered(s, start, pairs, |pairs|, i)))
  {
    var t := ChunkTrace(s, start, pairs, noMerge);
    TraceConserves(t, |pairs|);
  }

  /** It keeps the invariant: a refreshed entry shows exactly what its accounts hold. */
  lemma RefreshChunkKeepsInvariant(s: State, start: nat, pairs: seq<AccountPair>, noMerge: bool)
    requires Invariant(s) && start + |pairs| <= |s.validators|
    ensures var r := RefreshChunk(s, start, pairs, noMerge);
            && Invariant(r)
            && (forall i {:trigger Covered(s, start, pairs, |pairs|, i)} ::
                  0 <= i < |s.validators| && Covered(s, start, pairs, |pairs|, i) ==>
                    r.validators[i].lastUpdate == s.epoch && Agrees(r.validators[i], r.accounts))
            && (forall i :: 0 <= i < |s.validators| ==>
                  r.validators[i].status.Rank() <= s.validators[i].status.Rank())
  {
    var t := ChunkTrace(s, start, pairs, noMerge);
    TraceKeepsInvariant(t, |pairs|);
    TraceConserves(t, |pairs|);
    var r := RefreshChunk(s, start, pairs, noMerge);
    forall i | 0 <= i < |s.validators| && Covered(s, start, pairs, |pairs|, i)
      ensures r.validators[i].lastUpdate == s.epoch && Agrees(r.validators[i], r.accounts)
    {
      assert Tracked(s, r, i, Covered(t.states[0], t.start, t.pairs, |pairs|, i));
      assert SoundEntry(r.validators[i], r.accounts, r.epoch);
    }
  }

  /** A retired entry stays retired, and a merging update in a later epoch that covers it completes its removal. */
  lemma RefreshChunkCompletes(s: State, start: nat, pairs: seq<AccountPair>, noMerge: bool, i: nat, since: nat)
    requires Distinct(s.validators) && start + |pairs| <= |s.validators| && i < |s.validators|
    requires Retired(s.validators[i], s.accounts, since) && since < EPOCH_MAX
    ensures var r := RefreshChunk(s, start, pairs, noMerge);
            && |r.validators| == |s.validators| && Retired(r.validators[i], r.accounts, since)
            && (Invariant(s) && !noMerge && since < s.epoch && Covered(s, start, pairs, |pairs|, i) ==>
                  Completed(s, r, i))
  {
    var t := ChunkTrace(s, start, pairs, noMerge);
    TraceProgress(t, |pairs|, i, since);
  }
}
