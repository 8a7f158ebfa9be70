/**
 The machine words of the program and its checked arithmetic.

 A `safe_*` operation of the program fails instead of wrapping, so a failure is part of the
 behaviour: every operation below returns a `Result`, and callers propagate it with `:-`.
 */
module Words {
  import Arithmetic

  const U16_MAX := 0xFFFF
  const U32_MAX := 0xFFFF_FFFF
  const U64_MAX := 0xFFFF_FFFF_FFFF_FFFF
  const U128_MAX := 0xFFFF_FFFF_FFFF_FFFF_FFFF_FFFF_FFFF_FFFF
  const I64_MIN := -0x8000_0000_0000_0000
  const I64_MAX := 0x7FFF_FFFF_FFFF_FFFF

  type u16 = x: int | 0 <= x <= U16_MAX
  type u32 = x: int | 0 <= x <= U32_MAX
  type u64 = x: int | 0 <= x <= U64_MAX
  type u128 = x: int | 0 <= x <= U128_MAX
  type i64 = x: int | I64_MIN <= x <= I64_MAX

  datatype Option<+T> = None | Some(value: T) {
    function UnwrapOr(default: T): T {
      match this
      case Some(v) => v
      case None => default
    }
  }

  /** The error codes that the modelled instructions can return. */
  datatype Error =
      // arithmetic
    | MathOverflow
    | ConversionFailed
      // arguments
    | InvalidTransferAmount
    | InvalidSharesAmount
    | InvalidBasisPoints
    | InvalidPubkey
    | InvalidManagerAuthority
    | InvalidMinimumAmount
    | InvalidInstructionData
    | InvalidRemainingAccounts
    | InvalidProgramId
    | InvalidTokenAccountOwner
    | InvalidDepositMintExtension
      // status gates
    | ProtocolNotOperational
    | ProtocolNotWithdrawable
    | VaultNotOperational
    | VaultNotWithdrawable
    | VaultDepositPaused
    | VaultWithdrawalPaused
      // NAV and fees
    | NavAlreadyUpdatedThisEpoch
    | FeeExceedsTotalAssets
    | NavDeviationExceeded
    | TotalAssetsBelowIdleBalance
    | NoFeeToClaim
      // requests
    | VaultNavIsZero
    | DepositBelowMinimum
    | DepositCapReached
    | WithdrawalBelowMinimum
    | ZeroSharesMinted
    | PendingRequestNotResolved
    | RequestNotResolvable
    | RequestNotCancellable
    | InsufficientFunds
      // closing
    | VaultHasOutstandingShares
    | VaultHasPendingRequests
    | VaultHasUnclaimedFees
    | VaultHasOpenStrategies
    | VaultHasAssets
      // swaps
    | InvalidSwapMints
    | InvalidStrategy
    | InvalidStrategyMint
    | InvalidStrategyType
    | InvalidTargetMint
    | InvalidDepositMint
    | SlippageExceedsCap
    | SwapOutputBelowMinimum
      // raised by the runtime or by the token program, not by the program itself
    | AccountNotInitialized
    | AccountAlreadyInUse
    | InsufficientLamports
    | TokenBalanceTooLow
    | TokenSupplyOverflow
    | TokenAccountNotEmpty
    | RequireEqViolated
    | RequireGteViolated
    | AccountNotDeserialized
    | CpiFailed
    | Panicked

  datatype Result<+T> = Ok(value: T) | Err(error: Error) {
    predicate IsFailure() { Err? }

    /** Total, so that a step that happens never to fail can still be written with `:-`. */
    function PropagateFailure<U>(): Result<U> {
      match this
      case Err(e) => Err(e)
      case Ok(_) => Err(Panicked)
    }

    function Extract(): T
      requires Ok?
    {
      value
    }
  }

  /** The program's `validate!`: an error unless the condition holds. */
  function Validate(condition: bool, error: Error): Result<()> {
    if condition then Ok(()) else Err(error)
  }

  // checked arithmetic on u64

  function AddU64(a: u64, b: u64): Result<u64> {
    if a + b <= U64_MAX then Ok(a + b) else Err(MathOverflow)
  }

  function SubU64(a: u64, b: u64): Result<u64> {
    if b <= a then Ok(a - b) else Err(MathOverflow)
  }

  // checked arithmetic on u32

  function AddU32(a: u32, b: u32): Result<u32> {
    if a + b <= U32_MAX then Ok(a + b) else Err(MathOverflow)
  }

  function SubU32(a: u32, b: u32): Result<u32> {
    if b <= a then Ok(a - b) else Err(MathOverflow)
  }

  // checked arithmetic on u16 and i64

  function SubU16(a: u16, b: u16): Result<u16> {
    if b <= a then Ok(a - b) else Err(MathOverflow)
  }

  function AddI64(a: i64, b: i64): Result<i64> {
    if I64_MIN <= a + b <= I64_MAX then Ok(a + b) else Err(MathOverflow)
  }

  // checked arithmetic on u128

  function Add(a: u128, b: u128): Result<u128> {
    if a + b <= U128_MAX then Ok(a + b) else Err(MathOverflow)
  }

  function Sub(a: u128, b: u128): Result<u128> {
    if b <= a then Ok(a - b) else Err(MathOverflow)
  }

  function Mul(a: u128, b: u128): Result<u128> {
    if a * b <= U128_MAX then
      assert 0 <= a * b;
      Ok(a * b)
    else
      Err(MathOverflow)
  }

  function Div(a: u128, b: u128): Result<u128> {
    if b == 0 then Err(MathOverflow) else
      assert 0 <= a / b <= a by { Arithmetic.FloorInRange(a, b); }
      Ok(a / b)
  }

  function ToU64(a: u128): Result<u64> {
    if a <= U64_MAX then Ok(a) else Err(ConversionFailed)
  }

  // signed time

  /** `now.saturating_sub(last)`, clamped to the range of i64. */
  function SaturatingSub(a: i64, b: i64): i64 {
    if a - b > I64_MAX then I64_MAX else if a - b < I64_MIN then I64_MIN else a - b
  }

  /** The cast `as u128` of a signed value, which keeps the two's complement bit pattern. */
  function ToUnsigned128(a: i64): u128 {
    if 0 <= a then a else a + U128_MAX + 1
  }

  /** Signed division truncates toward zero. */
  function Truncate(a: int, b: int): int
    requires 0 < b
  {
    if 0 <= a then a / b else -((-a) / b)
  }
}
