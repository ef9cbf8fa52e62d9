/** The records and errors shared by every part of the liquidity pool module. */
module Types {

  type Symbol = string
  type Address = string

  /** The settlement asset. */
  const NATIVE: Symbol := "fury"

  /** The least native amount that opens a pool, and the bound below which one may be closed. */
  const POOL_THRESHOLD: nat := 1_000_000_000_000_000_000

  const MAX_WBASIS: nat := 10_000

  datatype Error =
    | ErrInvalid
    | ErrTotalAmountTooLow
    | ErrPermissionDenied
    | ErrUnableToCreatePool
    | ErrInvalidAmount
    | ErrBalanceNotAvailable
    | ErrPoolDoesNotExist
    | ErrNotEnoughAssetTokens
    | ErrReceivedAmountBelowExpected
    | ErrReachedMaxThreshold
    | ErrLiquidityProviderDoesNotExist
    | ErrUnableToRemoveLiquidity
    | ErrPoolTooShallow
    | ErrNotEnoughLiquidity
    | ErrBalanceTooHigh
    | ErrBankRefused
    /** A Uint went below zero, or a decimal was divided by zero. */
    | PanicArithmetic
    /** The explicit panic of MustUpdateLiquidityProtectionThreshold. */
    | PanicThreshold

  datatype Result<+T> = Ok(value: T) | Err(error: Error) {
    predicate IsFailure() { Err? }
    function PropagateFailure<U>(): Result<U>
      requires Err?
    {
      Err(error)
    }
    function Extract(): T
      requires Ok?
    {
      value
    }
  }

  /** A guard: passes, or ends the operation with an error. */
  datatype Guard = Pass | Fail(error: Error) {
    predicate IsFailure() { Fail? }
    function PropagateFailure<U>(): Result<U>
      requires Fail?
    {
      Err(error)
    }
  }

  function Need(condition: bool, error: Error): Guard {
    if condition then Pass else Fail(error)
  }

  /** sdk.Uint.Sub: panics rather than going below zero. */
  function Sub(a: nat, b: nat): Result<nat> {
    if b <= a then Ok(a - b) else Err(PanicArithmetic)
  }

  /** A pool of one external asset against the settlement asset. */
  datatype Pool = Pool(native: nat, external: nat, units: nat,
                       nativeLiabilities: nat, externalLiabilities: nat,
                       nativeCustody: nat, externalCustody: nat)
  {
    /** ExtractDebt: what the pool prices against is its balance plus what margin owes it. */
    function NativeDepth(): nat { native + nativeLiabilities }
    function ExternalDepth(): nat { external + externalLiabilities }
  }
}
