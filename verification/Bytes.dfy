/** Little-endian numbers and the 73-byte layout of a validator entry. */
module Bytes {
  import opened Base
  import opened Pricing
  import opened World

  type byte = n: nat | n < 256

  function Pow256(k: nat): (p: nat)
    ensures p > 0
  {
    if k == 0 then 1 else 256 * Pow256(k - 1)
  }

  /** The k lowest bytes of n, lowest first. */
  function ToLE(n: nat, k: nat): (s: seq<byte>)
    ensures |s| == k
  {
    if k == 0 then [] else [n % 256] + ToLE(n / 256, k - 1)
  }

  function FromLE(s: seq<byte>): nat {
    if s == [] then 0 else s[0] + 256 * FromLE(s[1..])
  }

  /** n can be written in k bytes. */
  predicate Fits(n: nat, k: nat) {
    if k == 0 then n == 0 else Fits(n / 256, k - 1)
  }

  lemma {:induction false} FitsIsBelow(n: nat, k: nat)
    ensures Fits(n, k) <==> n < Pow256(k)
  {
    if k > 0 {
      FitsIsBelow(n / 256, k - 1);
    }
  }

  lemma {:induction false} FromLEFits(s: seq<byte>)
    ensures Fits(FromLE(s), |s|)
  {
    if s != [] {
      FromLEFits(s[1..]);
    }
  }

  lemma {:induction false} FromToLE(n: nat, k: nat)
    requires Fits(n, k)
    ensures FromLE(ToLE(n, k)) == n
  {
    if k > 0 {
      FromToLE(n / 256, k - 1);
      assert ToLE(n, k)[1..] == ToLE(n / 256, k - 1);
    }
  }

  lemma ShiftedRemainder(n: nat, p: nat)
    requires p > 0
    ensures n % (256 * p) == 256 * (n / 256 % p) + n % 256
  {
    var a, m := n / 256, 256 * p;
    var q, r := a / p, a % p;
    assert a == q * p + r;
    assert q * m == 256 * (q * p);
    FloorUnique(n, m, q);
    assert n == n / m * m + n % m;
  }

  /** Writing a number in k bytes keeps what is left of it modulo 256^k. */
  lemma {:induction false} FromToLEWraps(n: nat, k: nat)
    ensures FromLE(ToLE(n, k)) == n % Pow256(k)
  {
    if k > 0 {
      FromToLEWraps(n / 256, k - 1);
      assert ToLE(n, k)[1..] == ToLE(n / 256, k - 1);
      ShiftedRemainder(n, Pow256(k - 1));
    }
  }

  lemma LowestByte(b: byte, n: nat)
    ensures (b + 256 * n) % 256 == b && (b + 256 * n) / 256 == n
  {
  }

  lemma {:induction false} ToFromLE(s: seq<byte>)
    ensures ToLE(FromLE(s), |s|) == s
  {
    if s != [] {
      ToFromLE(s[1..]);
      LowestByte(s[0], FromLE(s[1..]));
      assert ToLE(FromLE(s), |s|) == [s[0]] + ToLE(FromLE(s[1..]), |s| - 1);
    }
  }

  /** Only a block of zero bytes encodes zero. */
  lemma {:induction false} ZeroLE(s: seq<byte>)
    ensures FromLE(s) == 0 <==> forall i :: 0 <= i < |s| ==> s[i] == 0
  {
    if s != [] {
      ZeroLE(s[1..]);
      assert forall i :: 0 < i < |s| ==> s[i] == s[1..][i - 1];
    }
  }

  // ---------------------------------------------------------------------------------------
  // The layout of an entry
  // ---------------------------------------------------------------------------------------

  const RECORD: nat := 73
  const WORD: nat := 8
  const HALF: nat := 4
  const KEY: nat := 32

  function StatusByte(status: StakeStatus): byte {
    match status
    case Active => 0
    case DeactivatingTransient => 1
    case ReadyForRemoval => 2
    case DeactivatingValidator => 3
    case DeactivatingAll => 4
  }

  function StatusFromByte(b: byte): Option<StakeStatus> {
    if b == 0 then Some(Active)
    else if b == 1 then Some(DeactivatingTransient)
    else if b == 2 then Some(ReadyForRemoval)
    else if b == 3 then Some(DeactivatingValidator)
    else if b == 4 then Some(DeactivatingAll)
    else None
  }

  /** The widths of the fields: four u64, two u32, a status byte and a 32-byte key. */
  predicate InRange(e: ValidatorStakeInfo) {
    && Fits(e.active, WORD) && Fits(e.transient, WORD) && Fits(e.lastUpdate, WORD) && Fits(e.transientSeed, WORD)
    && Fits(e.unused, HALF) && Fits(e.validatorSeed, HALF) && Fits(e.vote, KEY)
  }

  lemma U64Fits(n: nat)
    ensures Fits(n, WORD) <==> n <= U64_MAX
  {
    FitsIsBelow(n, WORD);
    assert Pow256(WORD) == U64_MAX + 1;
  }

  lemma U32Fits(n: nat)
    ensures Fits(n, HALF) <==> n <= U32_MAX
  {
    FitsIsBelow(n, HALF);
    assert Pow256(HALF) == U32_MAX + 1;
  }

  lemma {:induction false} ZeroFits(k: nat)
    ensures Fits(0, k)
  {
    if k > 0 {
      ZeroFits(k - 1);
    }
  }

  function ZeroKey(): (n: nat)
    ensures Fits(n, KEY)
  {
    ZeroFits(KEY);
    0
  }

  function Encode(e: ValidatorStakeInfo): (s: seq<byte>)
    ensures |s| == RECORD
  {
    ToLE(e.active, WORD) + ToLE(e.transient, WORD) + ToLE(e.lastUpdate, WORD) + ToLE(e.transientSeed, WORD)
    + ToLE(e.unused, HALF) + ToLE(e.validatorSeed, HALF) + [StatusByte(e.status)] + ToLE(e.vote, KEY)
  }

  /** The fields of a record as they lie in it. */
  datatype Layout = Layout(active: seq<byte>, transient: seq<byte>, lastUpdate: seq<byte>, transientSeed: seq<byte>,
                           unused: seq<byte>, validatorSeed: seq<byte>, status: byte, vote: seq<byte>)

  function Fields(s: seq<byte>): (f: Layout)
    requires |s| == RECORD
  {
    Layout(s[0..8], s[8..16], s[16..24], s[24..32], s[32..36], s[36..40], s[40], s[41..73])
  }

  /** The entry a record holds, unless its status byte is not one. */
  function Decode(s: seq<byte>): Option<ValidatorStakeInfo>
    requires |s| == RECORD
  {
    Read(Fields(s))
  }

  function Read(f: Layout): Option<ValidatorStakeInfo> {
    match StatusFromByte(f.status)
    case None => None
    case Some(status) =>
      Some(ValidatorStakeInfo(FromLE(f.active), FromLE(f.transient), FromLE(f.lastUpdate), FromLE(f.transientSeed),
                              FromLE(f.unused), FromLE(f.validatorSeed), status, FromLE(f.vote)))
  }

  function Write(e: ValidatorStakeInfo): Layout {
    Layout(ToLE(e.active, WORD), ToLE(e.transient, WORD), ToLE(e.lastUpdate, WORD), ToLE(e.transientSeed, WORD),
           ToLE(e.unused, HALF), ToLE(e.validatorSeed, HALF), StatusByte(e.status), ToLE(e.vote, KEY))
  }

  lemma EncodeFields(e: ValidatorStakeInfo)
    ensures Fields(Encode(e)) == Write(e)
  {
  }

  lemma ReadWrite(e: ValidatorStakeInfo)
    requires InRange(e)
    ensures Read(Write(e)) == Some(e)
  {
    FromToLE(e.active, WORD);
    FromToLE(e.transient, WORD);
    FromToLE(e.lastUpdate, WORD);
    FromToLE(e.transientSeed, WORD);
    FromToLE(e.unused, HALF);
    FromToLE(e.validatorSeed, HALF);
    FromToLE(e.vote, KEY);
  }

  /** Writing an entry and reading it back gives the entry. */
  lemma DecodeEncode(e: ValidatorStakeInfo)
    requires InRange(e)
    ensures Decode(Encode(e)) == Some(e)
  {
    EncodeFields(e);
    ReadWrite(e);
  }

  lemma NumberOf(s: seq<byte>, k: nat)
    requires |s| == k
    ensures Fits(FromLE(s), k) && ToLE(FromLE(s), k) == s
  {
    FromLEFits(s);
    ToFromLE(s);
  }

  lemma WriteRead(f: Layout)
    requires Read(f).Some?
    requires |f.active| == WORD && |f.transient| == WORD && |f.lastUpdate| == WORD && |f.transientSeed| == WORD
    requires |f.unused| == HALF && |f.validatorSeed| == HALF && |f.vote| == KEY
    ensures InRange(Read(f).value) && Write(Read(f).value) == f
  {
    NumberOf(f.active, WORD);
    NumberOf(f.transient, WORD);
    NumberOf(f.lastUpdate, WORD);
    NumberOf(f.transientSeed, WORD);
    NumberOf(f.unused, HALF);
    NumberOf(f.validatorSeed, HALF);
    NumberOf(f.vote, KEY);
  }

  lemma JoinFields(s: seq<byte>)
    requires |s| == RECORD
    ensures var f := Fields(s);
            s == f.active + f.transient + f.lastUpdate + f.transientSeed + f.unused + f.validatorSeed
                 + [f.status] + f.vote
  {
  }

  /** Every record with a proper status byte is the encoding of the entry it decodes to. */
  lemma EncodeDecode(s: seq<byte>)
    requires |s| == RECORD && Decode(s).Some?
    ensures InRange(Decode(s).value) && Encode(Decode(s).value) == s
  {
    WriteRead(Fields(s));
    JoinFields(s);
  }

  // ---------------------------------------------------------------------------------------
  // Predicates evaluated on raw bytes
  // ---------------------------------------------------------------------------------------

  predicate MatchesVote(s: seq<byte>, vote: Pubkey)
    requires |s| == RECORD
  {
    s[41..73] == ToLE(vote, KEY)
  }

  predicate ActiveGreaterThan(s: seq<byte>, lamports: nat)
    requires |s| == RECORD
  {
    FromLE(s[0..8]) > lamports
  }

  predicate TransientGreaterThan(s: seq<byte>, lamports: nat)
    requires |s| == RECORD
  {
    FromLE(s[8..16]) > lamports
  }

  predicate IsRemoved(s: seq<byte>)
    requires |s| == RECORD
  {
    StatusFromByte(s[40]) == Some(ReadyForRemoval) && s[0..16] == seq(16, _ => 0)
  }

  predicate IsActive(s: seq<byte>)
    requires |s| == RECORD
  {
    StatusFromByte(s[40]) == Some(Active)
  }

  /** The raw-byte predicates say of every record what its decoded fields say. */
  lemma BytePredicatesAgree(s: seq<byte>, vote: Pubkey, lamports: nat)
    requires |s| == RECORD && Fits(vote, KEY)
    ensures match Decode(s)
            case None => !IsRemoved(s) && !IsActive(s)
            case Some(e) =>
              && (MatchesVote(s, vote) <==> e.vote == vote)
              && (ActiveGreaterThan(s, lamports) <==> e.active > lamports)
              && (TransientGreaterThan(s, lamports) <==> e.transient > lamports)
              && (IsRemoved(s) <==> e.Removed())
              && (IsActive(s) <==> e.status == Active)
  {
    ToFromLE(s[41..73]);
    FromToLE(vote, KEY);
    ZeroLE(s[0..8]);
    ZeroLE(s[8..16]);
    assert forall i :: 0 <= i < 8 ==> s[0..16][i] == s[0..8][i];
    assert forall i :: 8 <= i < 16 ==> s[0..16][i] == s[8..16][i - 8];
    if FromLE(s[0..8]) == 0 && FromLE(s[8..16]) == 0 {
      assert s[0..16] == seq(16, _ => 0);
    }
  }
}
