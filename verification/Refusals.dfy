/**
 Refusals tell the truth: an error that names a reason is reported only where the reason is there. What the error
 says is read off the accounts and the instruction, not off the checks that raised it.
 */
module Refusals {
  import opened Words
  import opened Arithmetic
  import opened Tables
  import opened VaultModel
  import opened Protocol

  predicate DepositGateShut(a: Accounts, e: Error) {
    e in {ProtocolNotOperational, VaultNotOperational, VaultDepositPaused}
    && (e == ProtocolNotOperational ==> a.config.status != Normal)
    && (e == VaultNotOperational ==> a.vault.status != Normal)
    && (e == VaultDepositPaused ==> a.vault.depositPaused)
  }

  predicate WithdrawalGateShut(a: Accounts, e: Error) {
    e in {ProtocolNotWithdrawable, VaultNotWithdrawable, VaultWithdrawalPaused}
    && (e == ProtocolNotWithdrawable ==> a.config.status == Paused)
    && (e == VaultNotWithdrawable ==> a.vault.status == Paused)
    && (e == VaultWithdrawalPaused ==> a.vault.withdrawalPaused)
  }

  // Requests

  predicate DepositReason(a: Accounts, now: i64, user: Key, amount: u64, e: Error) {
    if e == AccountNotInitialized then a.closed
    else if e == InvalidTransferAmount then amount == 0
    else if e == PendingRequestNotResolved then user in a.deposits && a.deposits[user].epoch != Epoch(now)
    else if e == VaultNavIsZero then a.vault.navPerShare == 0
    else if e == DepositBelowMinimum then amount < a.vault.minDeposit
    else if e == DepositCapReached then a.vault.depositCap < a.vault.totalAssets + a.vault.pendingDeposits + amount
    else if e == TokenBalanceTooLow then Balance(a.tokens, user) < amount
    else if e == MathOverflow then
      U64_MAX < a.vault.totalAssets + a.vault.pendingDeposits + amount
      || (user in a.deposits && U64_MAX < a.deposits[user].amount + amount)
    else DepositGateShut(a, e)
  }

  lemma DepositRefused(a: Accounts, now: i64, user: Key, amount: u64, e: Error)
    requires CreateDeposit(a, now, user, amount) == Err(e)
    ensures DepositReason(a, now, user, amount, e)
  {
  }

  predicate WithdrawalReason(a: Accounts, now: i64, user: Key, shares: u64, e: Error) {
    if e == AccountNotInitialized then a.closed
    else if e == InvalidSharesAmount then shares == 0
    else if e == PendingRequestNotResolved then user in a.withdrawals && a.withdrawals[user].epoch != Epoch(now)
    else if e == WithdrawalBelowMinimum then shares < a.vault.minWithdrawalShares && shares != Balance(a.shares, user)
    else if e == TokenBalanceTooLow then Balance(a.shares, user) < shares
    else if e == MathOverflow then
      U64_MAX < a.vault.pendingWithdrawalShares + shares
      || (user in a.withdrawals && U64_MAX < a.withdrawals[user].amount + shares)
    else WithdrawalGateShut(a, e)
  }

  lemma WithdrawalRefused(a: Accounts, now: i64, user: Key, shares: u64, e: Error)
    requires CreateWithdrawal(a, now, user, shares) == Err(e)
    ensures WithdrawalReason(a, now, user, shares, e)
  {
  }

  // Refunds

  predicate DepositRefundReason(a: Accounts, user: Key, cancel: bool, e: Error) {
    if e == AccountNotInitialized then a.closed || user !in a.deposits
    else
      user in a.deposits
      && if e == RequestNotCancellable then cancel && a.deposits[user].epoch < a.vault.navEpoch && 0 < a.vault.navPerShare
         else if e == TokenBalanceTooLow then a.depositEscrow < a.deposits[user].amount
         else e == MathOverflow && a.vault.pendingDeposits < a.deposits[user].amount
  }

  lemma DepositRefundRefused(a: Accounts, user: Key, cancel: bool, e: Error)
    requires (if cancel then CancelDepositRequest(a, user) else RejectDepositRequest(a, user)) == Err(e)
    ensures DepositRefundReason(a, user, cancel, e)
  {
  }

  predicate WithdrawalRefundReason(a: Accounts, user: Key, cancel: bool, e: Error) {
    if e == AccountNotInitialized then a.closed || user !in a.withdrawals
    else
      user in a.withdrawals
      && if e == RequestNotCancellable then cancel && a.withdrawals[user].epoch < a.vault.navEpoch
         else if e == TokenBalanceTooLow then a.shareEscrow < a.withdrawals[user].amount
         else e == MathOverflow && a.vault.pendingWithdrawalShares < a.withdrawals[user].amount
  }

  lemma WithdrawalRefundRefused(a: Accounts, user: Key, cancel: bool, e: Error)
    requires (if cancel then CancelWithdrawalRequest(a, user) else RejectWithdrawalRequest(a, user)) == Err(e)
    ensures WithdrawalRefundReason(a, user, cancel, e)
  {
  }

  // Settlements

  /** What a floor quotient says of its dividend. */
  lemma FloorReasons(a: nat, b: nat, limit: nat)
    requires 0 < b
    ensures a / b == 0 ==> a < b
    ensures limit < a / b ==> (limit + 1) * b <= a
  {
    Floor(a, b);
    if limit < a / b { MulMono(limit + 1, a / b, b); }
  }

  predicate MintReason(amount: nat, nav: nat, supply: u64, e: Error) {
    if e == ZeroSharesMinted then amount * 1_000_000_000 < nav
    else if e == ConversionFailed then (U64_MAX + 1) * nav <= amount * 1_000_000_000
    else e == TokenSupplyOverflow && (U64_MAX + 1 - supply) * nav <= amount * 1_000_000_000
  }

  predicate DepositSettlementReason(a: Accounts, user: Key, e: Error) {
    if e == AccountNotInitialized then a.closed || user !in a.deposits
    else
      user in a.deposits
      && if e == RequestNotResolvable then a.vault.navEpoch <= a.deposits[user].epoch
         else if e == VaultNavIsZero then a.vault.navPerShare == 0
         else if e == TokenBalanceTooLow then a.depositEscrow < a.deposits[user].amount
         else if e == MathOverflow then
           a.vault.pendingDeposits < a.deposits[user].amount || U64_MAX < a.vault.totalAssets + a.deposits[user].amount
         else DepositGateShut(a, e) || MintReason(a.deposits[user].amount, a.vault.navPerShare, a.shareSupply, e)
  }

  /** The quotient that fails a settlement. */
  predicate MintFails(amount: nat, nav: nat, supply: u64, e: Error) {
    0 < nav
    && var minted := SharesFor(amount, nav);
       (e == ConversionFailed && U64_MAX < minted) || (e == ZeroSharesMinted && minted == 0)
       || (e == TokenSupplyOverflow && U64_MAX < supply + minted)
  }

  lemma MintRefused(amount: nat, nav: nat, supply: u64, e: Error)
    requires MintFails(amount, nav, supply, e)
    ensures MintReason(amount, nav, supply, e)
  {
    FloorReasons(amount * NAV_PRECISION, nav, U64_MAX);
    FloorReasons(amount * NAV_PRECISION, nav, U64_MAX - supply);
  }

  lemma DepositNotDue(a: Accounts, user: Key, e: Error)
    requires DepositDue(a, user) == Err(e)
    ensures DepositSettlementReason(a, user, e)
  {
  }

  lemma DueDepositRefused(a: Accounts, user: Key, e: Error)
    requires DepositDue(a, user).Ok? && ResolveDepositRequest(a, user) == Err(e)
    ensures user in a.deposits
    ensures var amount := a.deposits[user].amount;
      (e == VaultNavIsZero && a.vault.navPerShare == 0)
      || (e == TokenBalanceTooLow && a.depositEscrow < amount)
      || (e == MathOverflow && (a.vault.pendingDeposits < amount || U64_MAX < a.vault.totalAssets + amount))
      || MintFails(amount, a.vault.navPerShare, a.shareSupply, e)
  {
  }

  lemma DepositSettlementRefused(a: Accounts, user: Key, e: Error)
    requires ResolveDepositRequest(a, user) == Err(e)
    ensures DepositSettlementReason(a, user, e)
  {
    if DepositDue(a, user).Err? {
      DepositNotDue(a, user, e);
    } else {
      DueDepositRefused(a, user, e);
      var amount, nav := a.deposits[user].amount, a.vault.navPerShare;
      if MintFails(amount, nav, a.shareSupply, e) { MintRefused(amount, nav, a.shareSupply, e); }
    }
  }

  predicate PayoutReason(a: Accounts, shares: nat, e: Error) {
    if e == InsufficientFunds then (a.idle + 1) * 1_000_000_000 <= shares * a.vault.navPerShare
    else if e == ConversionFailed then (U64_MAX + 1) * 1_000_000_000 <= shares * a.vault.navPerShare
    else if e == TokenBalanceTooLow then a.shareEscrow < shares || a.shareSupply < shares
    else
      e == MathOverflow
      && (a.vault.pendingWithdrawalShares < shares
          || (a.vault.totalAssets + 1) * 1_000_000_000 <= shares * a.vault.navPerShare
          || (U64_MAX + 1 - a.vault.epochOutflow) * 1_000_000_000 <= shares * a.vault.navPerShare)
  }

  predicate WithdrawalSettlementReason(a: Accounts, user: Key, e: Error) {
    if e == AccountNotInitialized then a.closed || user !in a.withdrawals
    else
      user in a.withdrawals
      && if e == RequestNotResolvable then a.vault.navEpoch <= a.withdrawals[user].epoch
         else WithdrawalGateShut(a, e) || PayoutReason(a, a.withdrawals[user].amount, e)
  }

  lemma WithdrawalSettlementChecks(a: Accounts, user: Key, e: Error)
    requires ResolveWithdrawalRequest(a, user) == Err(e)
    ensures WithdrawalDue(a, user) == Err(e)
            || (user in a.withdrawals
                && var shares := a.withdrawals[user].amount;
                   var paid := PayoutFor(shares, a.vault.navPerShare);
                   (e == MathOverflow && a.vault.pendingWithdrawalShares < shares)
                   || (e == ConversionFailed && U64_MAX < paid)
                   || (e == MathOverflow && (U64_MAX - a.vault.epochOutflow < paid || a.vault.totalAssets < paid))
                   || (e == InsufficientFunds && a.idle < paid)
                   || (e == TokenBalanceTooLow && (a.shareEscrow < shares || a.shareSupply < shares)))
  {
  }

  lemma PayoutRefused(a: Accounts, shares: nat)
    ensures var paid, worth := PayoutFor(shares, a.vault.navPerShare), shares * a.vault.navPerShare;
      (a.idle < paid ==> (a.idle + 1) * 1_000_000_000 <= worth)
      && (U64_MAX < paid ==> (U64_MAX + 1) * 1_000_000_000 <= worth)
      && (a.vault.totalAssets < paid ==> (a.vault.totalAssets + 1) * 1_000_000_000 <= worth)
      && (U64_MAX - a.vault.epochOutflow < paid ==> (U64_MAX + 1 - a.vault.epochOutflow) * 1_000_000_000 <= worth)
  {
    MulNat(shares, a.vault.navPerShare);
    FloorReasons(shares * a.vault.navPerShare, NAV_PRECISION, a.idle);
    FloorReasons(shares * a.vault.navPerShare, NAV_PRECISION, U64_MAX);
    FloorReasons(shares * a.vault.navPerShare, NAV_PRECISION, a.vault.totalAssets);
    FloorReasons(shares * a.vault.navPerShare, NAV_PRECISION, U64_MAX - a.vault.epochOutflow);
  }

  lemma WithdrawalSettlementRefused(a: Accounts, user: Key, e: Error)
    requires ResolveWithdrawalRequest(a, user) == Err(e)
    ensures WithdrawalSettlementReason(a, user, e)
  {
    WithdrawalSettlementChecks(a, user, e);
    if WithdrawalDue(a, user).Ok? {
      PayoutRefused(a, a.withdrawals[user].amount);
    }
  }

  // Posts

  predicate PostReason(a: Accounts, now: i64, totalAssets: u64, bounded: bool, e: Error) {
    if e == AccountNotInitialized then a.closed
    else if e == TotalAssetsBelowIdleBalance then totalAssets < a.idle
    else if e == NavAlreadyUpdatedThisEpoch then Epoch(now) <= a.vault.navEpoch
    else if e == NavDeviationExceeded then bounded && 0 < a.Supply()
    else if e == FeeExceedsTotalAssets then
      0 < a.Supply() && totalAssets <= FeesDue(a.vault, PostArgs(a, now, totalAssets, None)).Total()
    else e in {MathOverflow, ConversionFailed} && 0 < a.Supply()
  }

  lemma RecordRefused(v: VaultState, bound: Option<u16>, d: Dilution, e: Error)
    requires RecordDilution(v, bound, d) == Err(e)
    ensures e in {MathOverflow, ConversionFailed} || (e == NavDeviationExceeded && bound.Some?)
  {
  }

  lemma PostingRefused(v: VaultState, args: NavUpdateArgs, e: Error)
    requires PostNav(v, args) == Err(e)
    ensures if e == NavAlreadyUpdatedThisEpoch then Epoch(args.now) <= v.navEpoch
            else
              0 < v.VirtualSupply(args.shareSupply)
              && if e == FeeExceedsTotalAssets then args.totalAssets <= FeesDue(v, args).Total()
                 else e in {MathOverflow, ConversionFailed} || (e == NavDeviationExceeded && args.maxNavDeviationBps.Some?)
  {
    var supply := v.VirtualSupply(args.shareSupply);
    if 0 < supply <= U64_MAX && v.navEpoch < Epoch(args.now) {
      var fees := FeesDue(v, args);
      if fees.Total() == 0 || fees.Total() < args.totalAssets {
        var d := Dilute(args.totalAssets, supply, fees);
        if RecordDilution(v, args.maxNavDeviationBps, d).Err? {
          RecordRefused(v, args.maxNavDeviationBps, d, RecordDilution(v, args.maxNavDeviationBps, d).error);
        }
      }
    }
  }

  lemma PostRefused(a: Accounts, now: i64, totalAssets: u64, bound: Option<u16>, e: Error)
    requires Post(a, now, totalAssets, bound) == Err(e)
    ensures PostReason(a, now, totalAssets, bound.Some?, e)
  {
    var args := PostArgs(a, now, totalAssets, bound);
    if !a.closed && a.idle <= totalAssets { PostingRefused(a.vault, args, e); }
  }

  // Claims, strategies and the end

  predicate ClaimReason(a: Accounts, unclaimed: u64, e: Error) {
    if e == AccountNotInitialized then a.closed
    else if e == NoFeeToClaim then unclaimed == 0
    else e == TokenSupplyOverflow && U64_MAX < a.shareSupply + unclaimed
  }

  lemma ClaimsRefused(a: Accounts, e: Error)
    ensures ClaimManagerFees(a) == Err(e) ==> ClaimReason(a, a.vault.unclaimedManagerFeeShares, e)
    ensures ClaimPlatformFees(a) == Err(e) ==> ClaimReason(a, a.vault.unclaimedPlatformFeeShares, e)
  {
  }

  predicate OpenReason(a: Accounts, record: Key, e: Error) {
    if e == AccountNotInitialized then a.closed
    else if e == AccountAlreadyInUse then record in a.strategies
    else if e == InvalidStrategyMint then record == a.depositMint || record == a.shareMint
    else if e == MathOverflow then a.vault.nextStrategyId == U32_MAX || a.vault.openStrategyCount == U32_MAX
    else e != VaultDepositPaused && DepositGateShut(a, e)
  }

  predicate CloseReason(a: Accounts, record: Key, emptied: bool, e: Error) {
    if e == AccountNotInitialized then a.closed || record !in a.strategies
    else if e == TokenAccountNotEmpty then !emptied
    else if e == MathOverflow then a.vault.openStrategyCount == 0
    else e != VaultWithdrawalPaused && WithdrawalGateShut(a, e)
  }

  lemma StrategiesRefused(a: Accounts, record: Key, emptied: bool, e: Error)
    ensures InitializeStrategy(a, record) == Err(e) ==> OpenReason(a, record, e)
    ensures CloseStrategyRecord(a, record, emptied) == Err(e) ==> CloseReason(a, record, emptied, e)
  {
  }

  predicate EndReason(a: Accounts, e: Error) {
    if e == AccountNotInitialized then a.closed
    else if e == VaultHasOutstandingShares then 0 < a.shareSupply
    else if e == VaultHasPendingRequests then 0 < a.vault.pendingDeposits || 0 < a.vault.pendingWithdrawalShares
    else if e == VaultHasUnclaimedFees then 0 < a.vault.unclaimedManagerFeeShares || 0 < a.vault.unclaimedPlatformFeeShares
    else if e == VaultHasOpenStrategies then 0 < a.vault.openStrategyCount
    else if e == VaultHasAssets then 0 < a.vault.totalAssets
    else e == TokenAccountNotEmpty && (0 < a.idle || 0 < a.depositEscrow || 0 < a.shareEscrow)
  }

  lemma EndRefused(a: Accounts, e: Error)
    requires CloseVault(a) == Err(e)
    ensures EndReason(a, e)
  {
  }

  // All of them

  predicate Reason(a: Accounts, now: i64, ix: Instruction, e: Error) {
    match ix
    case DepositCreate(user, amount) => DepositReason(a, now, user, amount, e)
    case DepositCancel(user) => DepositRefundReason(a, user, true, e)
    case DepositReject(user) => DepositRefundReason(a, user, false, e)
    case DepositResolve(user) => DepositSettlementReason(a, user, e)
    case WithdrawalCreate(user, shares) => WithdrawalReason(a, now, user, shares, e)
    case WithdrawalCancel(user) => WithdrawalRefundReason(a, user, true, e)
    case WithdrawalReject(user) => WithdrawalRefundReason(a, user, false, e)
    case WithdrawalResolve(user) => WithdrawalSettlementReason(a, user, e)
    case NavUpdate(totalAssets) => PostReason(a, now, totalAssets, true, e)
    case NavOverride(totalAssets) => PostReason(a, now, totalAssets, false, e)
    case ClaimManager => ClaimReason(a, a.vault.unclaimedManagerFeeShares, e)
    case ClaimPlatform => ClaimReason(a, a.vault.unclaimedPlatformFeeShares, e)
    case StrategyInitialize(record) => OpenReason(a, record, e)
    case StrategyClose(record, emptied) => CloseReason(a, record, emptied, e)
    case VaultClose => EndReason(a, e)
    case _ => true
  }

  /** Whatever instruction is refused, with whatever error: the reason that the error names is there. */
  lemma RefusalsAreTrue(a: Accounts, now: i64, ix: Instruction, e: Error)
    requires Apply(a, now, ix) == Err(e)
    ensures Reason(a, now, ix, e)
  {
    match ix
    case DepositCreate(user, amount) => DepositRefused(a, now, user, amount, e);
    case DepositCancel(user) => DepositRefundRefused(a, user, true, e);
    case DepositReject(user) => DepositRefundRefused(a, user, false, e);
    case DepositResolve(user) => DepositSettlementRefused(a, user, e);
    case WithdrawalCreate(user, shares) => WithdrawalRefused(a, now, user, shares, e);
    case WithdrawalCancel(user) => WithdrawalRefundRefused(a, user, true, e);
    case WithdrawalReject(user) => WithdrawalRefundRefused(a, user, false, e);
    case WithdrawalResolve(user) => WithdrawalSettlementRefused(a, user, e);
    case NavUpdate(totalAssets) => PostRefused(a, now, totalAssets, Some(a.config.maxNavDeviationBps), e);
    case NavOverride(totalAssets) => PostRefused(a, now, totalAssets, None, e);
    case ClaimManager => ClaimsRefused(a, e);
    case ClaimPlatform => ClaimsRefused(a, e);
    case StrategyInitialize(record) => StrategiesRefused(a, record, false, e);
    case StrategyClose(record, emptied) => StrategiesRefused(a, record, emptied, e);
    case VaultClose => EndRefused(a, e);
    case _ =>
  }
}
