/** Machine widths, checked and saturating arithmetic, and the error values shared by every module. */
module Base {

  const U32_MAX: nat := 0xFFFF_FFFF
  const U64_MAX: nat := 0xFFFF_FFFF_FFFF_FFFF
  const U128_MAX: nat := 0xFFFF_FFFF_FFFF_FFFF_FFFF_FFFF_FFFF_FFFF

  type u32 = n: nat | n <= U32_MAX
  type u64 = n: nat | n <= U64_MAX

  datatype Option<+T> = None | Some(value: T)

  /** The outcomes of a handler that a caller can tell apart. */
  datatype Error =
    | AccountDataTooSmall
    | AccountInUse
    | AccountNotRentExempt
    | CalculationFailure
    | DepositTooSmall
    | ExceededSlippage
    | FeeIncreaseTooHigh
    | FeeTooHigh
    | InsufficientDelegation
    | InsufficientFunds
    | InvalidInstructionData
    | InvalidSeeds
    | InvalidStakeAccountAddress
    | ReserveDepleted
    | SolWithdrawalTooLarge
    | StakeLamportsNotEqualToMinimum
    | StakeListAndPoolOutOfDate
    | StakeListOutOfDate
    | TooManyValidatorsInPool
    | TransientAccountInUse
    | UnexpectedValidatorListAccountSize
    | ValidatorAlreadyAdded
    | ValidatorNotFound
    | WithdrawalTooSmall
    | WrongStakeStake

  datatype Result<+T> = Ok(value: T) | Err(error: Error) {
    predicate IsFailure() {
      Err?
    }

    function PropagateFailure<U>(): Result<U>
      requires Err?
    {
      Err(error)
    }

    function Extract(): T
      requires Ok?
    {
      value
    }
  }

  /** A check that either passes or stops the handler with an error. */
  datatype Outcome = Pass | Fail(error: Error) {
    predicate IsFailure() {
      Fail?
    }

    function PropagateFailure<U>(): Result<U>
      requires Fail?
    {
      Err(error)
    }
  }

  function Check(condition: bool, error: Error): Outcome {
    if condition then Pass else Fail(error)
  }

  /** `ok_or(CalculationFailure)?` */
  function Computed<T>(o: Option<T>): Result<T> {
    match o
    case Some(v) => Ok(v)
    case None => Err(CalculationFailure)
  }

  function Min(a: int, b: int): int {
    if a <= b then a else b
  }

  function Max(a: int, b: int): int {
    if a <= b then b else a
  }

  /** `u64::saturating_add` */
  function SatAdd(a: nat, b: nat): nat {
    Min(a + b, U64_MAX)
  }

  /** `u64::saturating_sub` */
  function SatSub(a: nat, b: nat): nat {
    Max(a - b, 0)
  }

  /** `u64::checked_add` */
  function CheckedAdd(a: nat, b: nat): Option<nat> {
    if a + b <= U64_MAX then Some(a + b) else None
  }

  /** `u64::checked_sub` */
  function CheckedSub(a: nat, b: nat): Option<nat> {
    if b <= a then Some(a - b) else None
  }
}
