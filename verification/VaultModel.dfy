/**
 The share-accounting kernel of the vault, as exact integer arithmetic on values.

 `VaultState` is the vault account. Each operation is a function from an account to either the
 account it leaves behind or the error that aborts the transaction. Products and quotients are those
 of the unbounded integers; class `Vault` (VaultAccount.dfy) performs the same operations step by
 step in checked 64- and 128-bit words and is proved to agree.
 */
module VaultModel {
  import opened Words

  const MAX_BPS := 10_000
  const NAV_PRECISION := 1_000_000_000
  const EPOCH_DURATION := 14_400
  const SECONDS_PER_YEAR := 31_536_000
  const FEE_INCREASE_DELAY := 604_800

  datatype Status = Normal | Paused | ReduceOnly

  datatype VaultState = VaultState(
    depositCap: u64,
    totalAssets: u64,
    navPerShare: u64,
    highWaterMark: u64,
    navEpoch: u64,
    lastNavTs: i64,
    pendingDeposits: u64,
    pendingWithdrawalShares: u64,
    unclaimedManagerFeeShares: u64,
    unclaimedPlatformFeeShares: u64,
    epochOutflow: u64,
    nextStrategyId: u32,
    performanceFeeBps: u16,
    managementFeeBps: u16,
    status: Status,
    depositPaused: bool,
    withdrawalPaused: bool,
    minDeposit: u64,
    minWithdrawalShares: u64,
    feeEffectiveTs: i64,
    pendingPerformanceFeeBps: u16,
    pendingManagementFeeBps: u16,
    openStrategyCount: u32)
  {
    /** Shares in existence: those minted plus the fee shares that a claim would mint. */
    function VirtualSupply(shareSupply: nat): nat {
      shareSupply + unclaimedManagerFeeShares + unclaimedPlatformFeeShares
    }
  }

  /** `Vault::epoch`: signed division truncates, and the cast to u64 wraps. */
  function Epoch(now: i64): u64 {
    var quotient := Truncate(now, EPOCH_DURATION);
    if 0 <= quotient then quotient else quotient + U64_MAX + 1
  }

  datatype NewVaultArgs = NewVaultArgs(
    depositCap: u64,
    minDeposit: u64,
    minWithdrawalShares: u64,
    performanceFeeBps: u16,
    managementFeeBps: u16,
    currentTs: i64)

  function NewVault(args: NewVaultArgs): VaultState {
    VaultState(
      args.depositCap, 0, NAV_PRECISION, NAV_PRECISION, 0, args.currentTs,
      0, 0, 0, 0, 0, 0,
      args.performanceFeeBps, args.managementFeeBps, Normal, false, false,
      args.minDeposit, args.minWithdrawalShares, 0, 0, 0, 0)
  }

  // NAV

  datatype NavUpdateArgs = NavUpdateArgs(
    totalAssets: u64,
    shareSupply: u64,
    platformPerformanceFeeBps: u16,
    platformManagementFeeBps: u16,
    maxNavDeviationBps: Option<u16>,
    now: i64)

  datatype NavFeeShares = NavFeeShares(managerFeeShares: u64, platformFeeShares: u64)

  /** The account after a NAV post, and the fee shares that the post accrued. */
  datatype NavPost = NavPost(vault: VaultState, feeShares: NavFeeShares)

  function Elapsed(v: VaultState, now: i64): u128 {
    ToUnsigned128(SaturatingSub(now, v.lastNavTs))
  }

  function ManagementFee(totalAssets: nat, bps: nat, elapsed: nat): nat {
    totalAssets * bps * elapsed / (SECONDS_PER_YEAR * MAX_BPS)
  }

  function PerformanceFee(profit: nat, bps: nat): nat {
    profit * bps / MAX_BPS
  }

  function NavOf(totalAssets: nat, supply: nat): nat
    requires 0 < supply
  {
    totalAssets * NAV_PRECISION / supply
  }

  /** Profit above the high-water mark, in deposit tokens. */
  function EligibleProfit(totalAssets: nat, supply: nat, highWaterMark: nat): nat
    requires 0 < supply
  {
    var gross := NavOf(totalAssets, supply);
    if gross <= highWaterMark then 0 else (gross - highWaterMark) * supply / NAV_PRECISION
  }

  /** Shares minted to pay `fee` out of a vault left with `net` assets. */
  function FeeShares(fee: nat, supply: nat, net: nat): nat
    requires 0 < net
  {
    fee * supply / net
  }

  /** The fees of one NAV post, in deposit tokens. */
  datatype Fees = Fees(manager: nat, platform: nat) {
    function Total(): nat { manager + platform }
  }

  function FeesDue(v: VaultState, args: NavUpdateArgs): Fees
    requires 0 < v.VirtualSupply(args.shareSupply)
  {
    var elapsed := Elapsed(v, args.now);
    var profit := EligibleProfit(args.totalAssets, v.VirtualSupply(args.shareSupply), v.highWaterMark);
    Fees(
      ManagementFee(args.totalAssets, v.managementFeeBps, elapsed) + PerformanceFee(profit, v.performanceFeeBps),
      ManagementFee(args.totalAssets, args.platformManagementFeeBps, elapsed)
      + PerformanceFee(profit, args.platformPerformanceFeeBps))
  }

  /** The dilution by which one NAV post pays its fees, and the NAV that results. */
  datatype Dilution = Dilution(managerShares: nat, platformShares: nat, supply: nat, navPerShare: nat)

  function Dilute(totalAssets: nat, supply: nat, fees: Fees): Dilution
    requires 0 < supply
    requires fees.Total() == 0 || fees.Total() < totalAssets
  {
    var managerShares := if fees.Total() == 0 then 0 else FeeShares(fees.manager, supply, totalAssets - fees.Total());
    var platformShares := if fees.Total() == 0 then 0 else FeeShares(fees.platform, supply, totalAssets - fees.Total());
    var newSupply := supply + managerShares + platformShares;
    Dilution(managerShares, platformShares, newSupply, NavOf(totalAssets, newSupply))
  }

  function AbsDiff(a: nat, b: nat): nat {
    if a <= b then b - a else a - b
  }

  predicate WithinDeviation(navPerShare: nat, previous: nat, maxDeviationBps: nat) {
    AbsDiff(navPerShare, previous) <= previous * maxDeviationBps / MAX_BPS
  }

  /** No u128 product of a management fee overflows. */
  predicate FeeProductFits(totalAssets: nat, bps: nat, elapsed: nat) {
    totalAssets * bps * elapsed <= U128_MAX
  }

  function PostNav(v: VaultState, args: NavUpdateArgs): Result<NavPost> {
    var supply := v.VirtualSupply(args.shareSupply);
    if Epoch(args.now) <= v.navEpoch then Err(NavAlreadyUpdatedThisEpoch) else
    if supply > U64_MAX then Err(MathOverflow) else
    if supply == 0 then
      Ok(NavPost(StampNav(v.(navPerShare := NAV_PRECISION), args), NavFeeShares(0, 0)))
    else
      match AccruedFees(v, args) case Err(e) => Err(e) case Ok((accrued, feeShares)) =>
      Ok(NavPost(StampNav(accrued, args), feeShares))
  }

  /** The fee branch of a post: the account with the dilution recorded, and the fee shares. */
  function AccruedFees(v: VaultState, args: NavUpdateArgs): Result<(VaultState, NavFeeShares)>
    requires 0 < v.VirtualSupply(args.shareSupply)
  {
    var elapsed := Elapsed(v, args.now);
    if !FeeProductFits(args.totalAssets, v.managementFeeBps, elapsed) then Err(MathOverflow) else
    if !FeeProductFits(args.totalAssets, args.platformManagementFeeBps, elapsed) then Err(MathOverflow) else
    Accrue(v, args, FeesDue(v, args))
  }

  /** Charges `fees` by dilution. */
  function Accrue(v: VaultState, args: NavUpdateArgs, fees: Fees): Result<(VaultState, NavFeeShares)>
    requires 0 < v.VirtualSupply(args.shareSupply)
  {
    if fees.Total() != 0 && args.totalAssets <= fees.Total() then
      Err(FeeExceedsTotalAssets)
    else
      RecordDilution(v, args.maxNavDeviationBps, Dilute(args.totalAssets, v.VirtualSupply(args.shareSupply), fees))
  }

  /** Records the dilution, unless it breaks the deviation bound or does not fit its fields. */
  function RecordDilution(v: VaultState, maxNavDeviationBps: Option<u16>, d: Dilution): Result<(VaultState, NavFeeShares)> {
    var manager := v.unclaimedManagerFeeShares + d.managerShares;
    var platform := v.unclaimedPlatformFeeShares + d.platformShares;
    if d.navPerShare > U64_MAX then Err(ConversionFailed) else
    if maxNavDeviationBps.Some? && !WithinDeviation(d.navPerShare, v.navPerShare, maxNavDeviationBps.value)
    then Err(NavDeviationExceeded) else
    if d.managerShares > U64_MAX || d.platformShares > U64_MAX then Err(ConversionFailed) else
    if manager > U64_MAX || platform > U64_MAX then Err(MathOverflow) else
    Ok((v.(unclaimedManagerFeeShares := manager,
           unclaimedPlatformFeeShares := platform,
           navPerShare := d.navPerShare,
           highWaterMark := if d.navPerShare > v.highWaterMark then d.navPerShare else v.highWaterMark),
        NavFeeShares(d.managerShares, d.platformShares)))
  }

  /** The tail common to every NAV post. Pending fees apply only now, after the old rates were charged. */
  function StampNav(v: VaultState, args: NavUpdateArgs): VaultState {
    ApplyPendingFees(v, args.now).(
      totalAssets := args.totalAssets,
      navEpoch := Epoch(args.now),
      lastNavTs := args.now,
      epochOutflow := 0)
  }

  // Requests

  function RequestDeposit(v: VaultState, amount: u64): Result<VaultState> {
    if v.navPerShare == 0 then Err(VaultNavIsZero) else
    if amount < v.minDeposit then Err(DepositBelowMinimum) else
    if v.pendingDeposits + amount > U64_MAX then Err(MathOverflow) else
    if v.totalAssets + v.pendingDeposits + amount > U64_MAX then Err(MathOverflow) else
    if v.totalAssets + v.pendingDeposits + amount > v.depositCap then Err(DepositCapReached) else
    Ok(v.(pendingDeposits := v.pendingDeposits + amount))
  }

  function CancelDeposit(v: VaultState, amount: u64): Result<VaultState> {
    if amount > v.pendingDeposits then Err(MathOverflow) else
    Ok(v.(pendingDeposits := v.pendingDeposits - amount))
  }

  /** Shares bought by `amount` at the NAV in force. */
  function SharesFor(amount: nat, navPerShare: nat): nat
    requires 0 < navPerShare
  {
    amount * NAV_PRECISION / navPerShare
  }

  /** Deposit tokens paid for `shares` at the NAV in force. */
  function PayoutFor(shares: nat, navPerShare: nat): nat {
    shares * navPerShare / NAV_PRECISION
  }

  /** The account after a settlement, and the shares minted or tokens paid by it. */
  datatype Settlement = Settlement(vault: VaultState, output: u64)

  function ResolveDeposit(v: VaultState, amount: u64): Result<Settlement> {
    if v.navPerShare == 0 then
      Err(VaultNavIsZero)
    else
      var shares := SharesFor(amount, v.navPerShare);
      if shares > U64_MAX then Err(ConversionFailed) else
      if shares == 0 then Err(ZeroSharesMinted) else
      if amount > v.pendingDeposits || v.totalAssets + amount > U64_MAX then Err(MathOverflow) else
      Ok(Settlement(
           v.(pendingDeposits := v.pendingDeposits - amount, totalAssets := v.totalAssets + amount),
           shares))
  }

  function RequestWithdrawal(v: VaultState, shares: u64, shareBalance: nat): Result<VaultState> {
    if shares < v.minWithdrawalShares && shares != shareBalance then Err(WithdrawalBelowMinimum) else
    if v.pendingWithdrawalShares + shares > U64_MAX then Err(MathOverflow) else
    Ok(v.(pendingWithdrawalShares := v.pendingWithdrawalShares + shares))
  }

  function CancelWithdrawal(v: VaultState, shares: u64): Result<VaultState> {
    if shares > v.pendingWithdrawalShares then Err(MathOverflow) else
    Ok(v.(pendingWithdrawalShares := v.pendingWithdrawalShares - shares))
  }

  /** The outflow cap is computed by the program but not enforced, so it does not appear here. */
  function ResolveWithdrawal(v: VaultState, shares: u64): Result<Settlement> {
    if shares > v.pendingWithdrawalShares then Err(MathOverflow) else
    var amount := PayoutFor(shares, v.navPerShare);
    if amount > U64_MAX then Err(ConversionFailed) else
    if v.epochOutflow + amount > U64_MAX || amount > v.totalAssets then Err(MathOverflow) else
    Ok(Settlement(
         v.(pendingWithdrawalShares := v.pendingWithdrawalShares - shares,
            epochOutflow := v.epochOutflow + amount,
            totalAssets := v.totalAssets - amount),
         amount))
  }

  // Fees

  datatype Rates = Rates(performance: u16, management: u16) {
    /** At most `other` in both rates. */
    predicate AtMost(other: Rates) {
      performance <= other.performance && management <= other.management
    }
  }

  function LiveRates(v: VaultState): Rates {
    Rates(v.performanceFeeBps, v.managementFeeBps)
  }

  function PendingRates(v: VaultState): Rates {
    Rates(v.pendingPerformanceFeeBps, v.pendingManagementFeeBps)
  }

  /** The pair a fee update asks for: a rate left out is asked for again as it was last. */
  function RequestedRates(v: VaultState, performance: Option<u16>, management: Option<u16>): Rates {
    var latest := if v.feeEffectiveTs == 0 then LiveRates(v) else PendingRates(v);
    Rates(performance.UnwrapOr(latest.performance), management.UnwrapOr(latest.management))
  }

  function UpdateFees(v: VaultState, performance: Option<u16>, management: Option<u16>, now: i64): Result<VaultState> {
    var rates := RequestedRates(v, performance, management);
    if rates.performance > MAX_BPS || rates.management > MAX_BPS then Err(InvalidBasisPoints) else
    if rates.AtMost(LiveRates(v)) then
      Ok(v.(performanceFeeBps := rates.performance, managementFeeBps := rates.management,
            pendingPerformanceFeeBps := 0, pendingManagementFeeBps := 0, feeEffectiveTs := 0))
    else
      if now + FEE_INCREASE_DELAY > I64_MAX then Err(MathOverflow) else
      Ok(v.(pendingPerformanceFeeBps := rates.performance, pendingManagementFeeBps := rates.management,
            feeEffectiveTs := now + FEE_INCREASE_DELAY))
  }

  function ApplyPendingFees(v: VaultState, now: i64): VaultState {
    if v.feeEffectiveTs != 0 && now >= v.feeEffectiveTs then
      v.(performanceFeeBps := v.pendingPerformanceFeeBps, managementFeeBps := v.pendingManagementFeeBps,
         pendingPerformanceFeeBps := 0, pendingManagementFeeBps := 0, feeEffectiveTs := 0)
    else
      v
  }

  function ClaimManagerFee(v: VaultState): Result<Settlement> {
    if v.unclaimedManagerFeeShares == 0 then Err(NoFeeToClaim) else
    Ok(Settlement(v.(unclaimedManagerFeeShares := 0), v.unclaimedManagerFeeShares))
  }

  function ClaimPlatformFee(v: VaultState): Result<Settlement> {
    if v.unclaimedPlatformFeeShares == 0 then Err(NoFeeToClaim) else
    Ok(Settlement(v.(unclaimedPlatformFeeShares := 0), v.unclaimedPlatformFeeShares))
  }

  // Strategy counters

  /** Both counters step up together when a strategy opens. */
  function OpenStrategy(v: VaultState): Result<VaultState> {
    if v.nextStrategyId == U32_MAX || v.openStrategyCount == U32_MAX then Err(MathOverflow) else
    Ok(v.(nextStrategyId := v.nextStrategyId + 1, openStrategyCount := v.openStrategyCount + 1))
  }

  function CloseStrategy(v: VaultState): Result<VaultState> {
    if v.openStrategyCount == 0 then Err(MathOverflow) else
    Ok(v.(openStrategyCount := v.openStrategyCount - 1))
  }
}
