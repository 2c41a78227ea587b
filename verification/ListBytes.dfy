/** The validator list as it lies in its account, and what the handlers do to those bytes. */
module ListBytes {
  import opened Base
  import opened Pricing
  import opened Seqs
  import opened World
  import opened Bytes
  import opened BigVecs
  import opened ListRange
  import opened Handlers
  import opened Steps

  /** The records of the buffer are the encodings of the entries. */
  ghost predicate Shows(v: BigVec, validators: seq<ValidatorStakeInfo>)
    reads v.data
  {
    v.Valid(RECORD) && Records(v.data[..], RECORD) == Map(validators, Encode)
  }

  /** And the entries can be read back from them. */
  ghost predicate Holds(v: BigVec, validators: seq<ValidatorStakeInfo>)
    reads v.data
  {
    Shows(v, validators) && AllInRange(validators)
  }

  // ---------------------------------------------------------------------------------------
  // Cleaning up
  // ---------------------------------------------------------------------------------------

  predicate NotRemoved(record: seq<byte>) {
    |record| == RECORD ==> !IsRemoved(record)
  }

  lemma EncodedPredicates(e: ValidatorStakeInfo, vote: Pubkey, lamports: nat)
    requires InRange(e) && Fits(vote, KEY)
    ensures NotRemoved(Encode(e)) <==> Kept(e)
    ensures MatchesVote(Encode(e), vote) <==> e.vote == vote
    ensures ActiveGreaterThan(Encode(e), lamports) <==> e.active > lamports
    ensures TransientGreaterThan(Encode(e), lamports) <==> e.transient > lamports
    ensures IsActive(Encode(e)) <==> e.status == Active
  {
    DecodeEncode(e);
    BytePredicatesAgree(Encode(e), vote, lamports);
  }

  /** Filtering the raw records is filtering the entries. */
  lemma FilterEncoded(validators: seq<ValidatorStakeInfo>)
    requires AllInRange(validators)
    ensures Filter(Map(validators, Encode), NotRemoved) == Map(Filter(validators, Kept), Encode)
  {
    forall i | 0 <= i < |validators|
      ensures NotRemoved(Encode(validators[i])) <==> Kept(validators[i])
    {
      EncodedPredicates(validators[i], validators[i].vote, 0);
    }
    FilterMap(validators, Encode, Kept, NotRemoved);
  }

  lemma FilterInRange(validators: seq<ValidatorStakeInfo>)
    requires AllInRange(validators)
    ensures AllInRange(Filter(validators, Kept))
  {
    FilterHasOnly(validators, Kept);
    var kept := Filter(validators, Kept);
    forall i | 0 <= i < |kept|
      ensures InRange(kept[i])
    {
      assert kept[i] in validators;
    }
  }

  /** Compacting the account in place leaves exactly the list that cleaning up the entries gives. */
  method CleanupList(v: BigVec, ghost s: State)
    requires Holds(v, s.validators)
    modifies v.data
    ensures Holds(v, Cleanup(s).validators)
    ensures SameFrom(old(v.data[..]), v.data[..], PREFIX + old(v.Len()) * RECORD)
  {
    FilterEncoded(s.validators);
    FilterInRange(s.validators);
    var _ := v.Retain(RECORD, NotRemoved);
  }

  // ---------------------------------------------------------------------------------------
  // Looking up entries
  // ---------------------------------------------------------------------------------------

  /** The record found for a vote account is the first entry of that account, and so its only one. */
  method FindVote(v: BigVec, vote: Key, ghost validators: seq<ValidatorStakeInfo>) returns (r: Option<nat>)
    requires Holds(v, validators)
    ensures r == if IndexOf(validators, vote) == |validators| then None
                 else Some(PREFIX + IndexOf(validators, vote) * RECORD)
    ensures Distinct(validators) ==>
              forall i :: 0 <= i < |validators| && validators[i].vote == vote ==> r == Some(PREFIX + i * RECORD)
  {
    r := v.Find(RECORD, ByVote(vote));
    FirstVote(validators, vote);
  }

  function ByVote(vote: Pubkey): seq<byte> -> bool {
    (record: seq<byte>) => |record| == RECORD && MatchesVote(record, vote)
  }

  lemma FirstVote(validators: seq<ValidatorStakeInfo>, vote: Pubkey)
    requires AllInRange(validators) && Fits(vote, KEY)
    ensures FirstMatch(Map(validators, Encode), ByVote(vote))
            == if IndexOf(validators, vote) == |validators| then None else Some(IndexOf(validators, vote))
  {
    forall i | 0 <= i < |validators|
      ensures ByVote(vote)(Map(validators, Encode)[i]) <==> validators[i].vote == vote
    {
      EncodedVote(validators[i], vote);
    }
    FirstIs(Map(validators, Encode), ByVote(vote), validators, vote);
  }

  lemma FirstIs(records: seq<seq<byte>>, wanted: seq<byte> -> bool, validators: seq<ValidatorStakeInfo>, vote: Pubkey)
    requires |records| == |validators|
    requires forall i {:trigger validators[i]} {:trigger records[i]} ::
               0 <= i < |validators| ==> (wanted(records[i]) <==> validators[i].vote == vote)
    ensures FirstMatch(records, wanted)
            == if IndexOf(validators, vote) == |validators| then None else Some(IndexOf(validators, vote))
  {
    var i := IndexOf(validators, vote);
    assert i < |validators| ==> wanted(records[i]);
  }

  lemma EncodedVote(e: ValidatorStakeInfo, vote: Pubkey)
    requires InRange(e) && Fits(vote, KEY)
    ensures MatchesVote(Encode(e), vote) <==> e.vote == vote
  {
    EncodedPredicates(e, vote, 0);
  }

  /** Whether some active entry holds more than `limit`, as a stake withdrawal asks. */
  method AnyActiveAbove(v: BigVec, limit: nat, ghost validators: seq<ValidatorStakeInfo>) returns (r: bool)
    requires Holds(v, validators)
    ensures r <==> HasActive(validators, limit)
  {
    var wanted := (record: seq<byte>) => |record| == RECORD && ActiveGreaterThan(record, limit) && IsActive(record);
    var at := v.Find(RECORD, wanted);
    forall i | 0 <= i < |validators|
      ensures ActiveGreaterThan(Encode(validators[i]), limit) <==> validators[i].active > limit
      ensures IsActive(Encode(validators[i])) <==> validators[i].status == Active
    {
      EncodedPredicates(validators[i], validators[i].vote, limit);
    }
    assert forall i :: 0 <= i < |validators| ==> Records(v.data[..], RECORD)[i] == Encode(validators[i]);
    r := at.Some?;
    if r {
      assert validators[FirstMatch(Records(v.data[..], RECORD), wanted).value] in validators;
    }
  }

  /** The same for transient stake. */
  method AnyTransientAbove(v: BigVec, limit: nat, ghost validators: seq<ValidatorStakeInfo>) returns (r: bool)
    requires Holds(v, validators)
    ensures r <==> HasTransient(validators, limit)
  {
    var wanted := (record: seq<byte>) => |record| == RECORD && TransientGreaterThan(record, limit) && IsActive(record);
    var at := v.Find(RECORD, wanted);
    forall i | 0 <= i < |validators|
      ensures TransientGreaterThan(Encode(validators[i]), limit) <==> validators[i].transient > limit
      ensures IsActive(Encode(validators[i])) <==> validators[i].status == Active
    {
      EncodedPredicates(validators[i], validators[i].vote, limit);
    }
    assert forall i :: 0 <= i < |validators| ==> Records(v.data[..], RECORD)[i] == Encode(validators[i]);
    r := at.Some?;
    if r {
      assert validators[FirstMatch(Records(v.data[..], RECORD), wanted).value] in validators;
    }
  }

  /** Reading an entry through the reference of a search. */
  method ReadEntry(v: BigVec, at: nat, ghost validators: seq<ValidatorStakeInfo>, ghost i: nat)
    returns (e: ValidatorStakeInfo)
    requires Shows(v, validators) && i < |validators| && InRange(validators[i]) && at == PREFIX + i * RECORD
    ensures e == validators[i]
  {
    RecordBytes(v.data[..], RECORD, i);
    var record := v.data[at..at + RECORD];
    assert record == v.data[..][at..at + RECORD];
    DecodeEncode(validators[i]);
    return Decode(record).value;
  }

  /** Writing an entry back through it changes that entry only. */
  method StoreEntry(v: BigVec, at: nat, e: ValidatorStakeInfo, ghost validators: seq<ValidatorStakeInfo>, ghost i: nat)
    requires Shows(v, validators) && i < |validators| && at == PREFIX + i * RECORD
    modifies v.data
    ensures Shows(v, validators[i := e])
  {
    assert v.Len() == |validators|;
    v.Overwrite(RECORD, at, Encode(e), i);
    assert Map(validators[i := e], Encode) == Map(validators, Encode)[i := Encode(e)];
  }

  // ---------------------------------------------------------------------------------------
  // Adding an entry
  // ---------------------------------------------------------------------------------------

  /** In a run that starts with a new pool, a validator that may be added always fits the list account. */
  lemma AddedEntryFits(epochFee: Fee, withdrawalFee: Fee, depositFee: Fee, referralFee: nat, maxValidators: nat,
                       listBytes: nat, reserve: u64, epoch: nat, chain: Chain,
                       run: seq<State>, i: nat, vote: Pubkey, seed: nat)
    requires epoch < EPOCH_MAX && chain.stakeRent > 0
    requires Run(run) && i < |run|
    requires Initialize(epochFee, withdrawalFee, depositFee, referralFee, maxValidators, listBytes, reserve, epoch,
                        chain) == Ok(run[0])
    requires AddValidator(run[i], vote, seed).Ok?
    ensures |run[i].validators| < run[i].maxValidators <= MAX_VALIDATORS_IN_POOL
    ensures LIST_HEADER_BYTES + PREFIX + (|run[i].validators| + 1) * RECORD <= listBytes
  {
    InitializeEstablishes(epochFee, withdrawalFee, depositFee, referralFee, maxValidators, listBytes, reserve, epoch,
                          chain, run[0]);
    RunKeeps(run, i);
  }

  /** So the push at the end of `AddValidator` succeeds. */
  method AddEntry(v: BigVec, e: ValidatorStakeInfo, ghost validators: seq<ValidatorStakeInfo>) returns (r: Outcome)
    requires Shows(v, validators) && |validators| < MAX_VALIDATORS_IN_POOL
    modifies v.data
    ensures r == Check(PREFIX + |validators| * RECORD + RECORD <= v.data.Length, AccountDataTooSmall)
    ensures r.Pass? ==> Shows(v, validators + [e])
  {
    assert v.Len() == |validators|;
    r := v.Push(RECORD, Encode(e));
    assert Map(validators + [e], Encode) == Map(validators, Encode) + [Encode(e)];
  }
}
