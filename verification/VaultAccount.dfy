/**
 The vault account as the program updates it: fields assigned one after another, every product, sum
 and quotient checked in the width the program uses. Each method is proved to leave exactly the
 account that `VaultModel` computes in unbounded integers and to fail with exactly its error, so no
 intermediate u128 operation can overflow except where the model says so. A method that fails may
 have assigned some fields already; the transaction that called it is rolled back (Program.dfy).
 */
module VaultAccount {
  import opened Words
  import opened VaultModel
  import opened Arithmetic

  // The word-size facts behind the checked NAV computation

  /** What the checked computation of gross NAV and eligible profit needs. */
  lemma ProfitFits(totalAssets: u64, supply: u64, highWaterMark: u64)
    requires 0 < supply
    ensures totalAssets * NAV_PRECISION <= U128_MAX
    ensures 0 <= NavOf(totalAssets, supply) <= U128_MAX
    ensures NavOf(totalAssets, supply) > highWaterMark ==>
              0 <= (NavOf(totalAssets, supply) - highWaterMark) * supply <= U128_MAX
    ensures EligibleProfit(totalAssets, supply, highWaterMark) <= totalAssets
  {
    var gross := NavOf(totalAssets, supply);
    FloorInRange(totalAssets * NAV_PRECISION, supply);
    if gross > highWaterMark {
      Floor(totalAssets * NAV_PRECISION, supply);
      MulMono2(gross - highWaterMark, gross, supply, supply);
      FloorMono((gross - highWaterMark) * supply, totalAssets * NAV_PRECISION, NAV_PRECISION);
    }
  }

  /** Fees stay far below u128 once the management product fits. */
  lemma FeesFit(v: VaultState, args: NavUpdateArgs)
    requires 0 < v.VirtualSupply(args.shareSupply) <= U64_MAX
    requires FeeProductFits(args.totalAssets, v.managementFeeBps, Elapsed(v, args.now))
    requires FeeProductFits(args.totalAssets, args.platformManagementFeeBps, Elapsed(v, args.now))
    ensures FeesDue(v, args).Total() <= U128_MAX
  {
    var supply := v.VirtualSupply(args.shareSupply);
    ProfitFits(args.totalAssets, supply, v.highWaterMark);
    var profit := EligibleProfit(args.totalAssets, supply, v.highWaterMark);
    PerformanceFeeFits(profit, v.performanceFeeBps);
    PerformanceFeeFits(profit, args.platformPerformanceFeeBps);
    ManagementFeeFits(args.totalAssets, v.managementFeeBps, Elapsed(v, args.now));
    ManagementFeeFits(args.totalAssets, args.platformManagementFeeBps, Elapsed(v, args.now));
  }

  lemma PerformanceFeeFits(profit: u64, bps: u16)
    ensures 0 <= profit * bps <= U128_MAX
    ensures 0 <= PerformanceFee(profit, bps) <= U64_MAX * U16_MAX
  {
    MulMono2(profit, U64_MAX, bps, U16_MAX);
    FloorInRange(profit * bps, MAX_BPS);
  }

  lemma ManagementFeeFits(totalAssets: u64, bps: u16, elapsed: u128)
    ensures 0 <= totalAssets * bps <= U128_MAX
    ensures 0 <= totalAssets * bps * elapsed
    ensures FeeProductFits(totalAssets, bps, elapsed) ==>
              ManagementFee(totalAssets, bps, elapsed) <= U128_MAX / (SECONDS_PER_YEAR * MAX_BPS)
  {
    MulMono2(totalAssets, U64_MAX, bps, U16_MAX);
    MulNat(totalAssets * bps, elapsed);
    if FeeProductFits(totalAssets, bps, elapsed) {
      FloorMono(totalAssets * bps * elapsed, U128_MAX, SECONDS_PER_YEAR * MAX_BPS);
    }
  }

  /** A fee below u64 times a u64 supply, and its quotient, fit u128 with room for the supply. */
  lemma FeeProductsFit(manager: nat, platform: nat, supply: u64)
    requires manager + platform < U64_MAX
    ensures 0 <= manager * supply && 0 <= platform * supply
    ensures manager * supply + platform * supply + supply <= U128_MAX
  {
    MulNat(manager, supply);
    MulNat(platform, supply);
    MulMono2(manager + platform, U64_MAX - 1, supply, U64_MAX);
    assert (manager + platform) * supply == manager * supply + platform * supply;
  }

  /** Dilution by a fee below the assets never exceeds u128. */
  lemma DilutionFits(totalAssets: u64, supply: u64, fees: Fees)
    requires 0 < supply
    requires fees.Total() == 0 || fees.Total() < totalAssets
    ensures 0 <= fees.manager * supply <= U128_MAX && 0 <= fees.platform * supply <= U128_MAX
    ensures var d := Dilute(totalAssets, supply, fees);
      0 <= d.managerShares && 0 <= d.platformShares && 0 < d.supply <= U128_MAX && 0 <= d.navPerShare <= U128_MAX
  {
    FeeProductsFit(fees.manager, fees.platform, supply);
    if fees.Total() > 0 {
      FloorInRange(fees.manager * supply, totalAssets - fees.Total());
      FloorInRange(fees.platform * supply, totalAssets - fees.Total());
    }
    FloorInRange(totalAssets * NAV_PRECISION, Dilute(totalAssets, supply, fees).supply);
  }

  lemma DeviationFits(previous: u64, bps: u16)
    ensures 0 <= previous * bps <= U128_MAX
  {
    MulMono2(previous, U64_MAX, bps, U16_MAX);
  }

  class Vault {
    var depositCap: u64
    var totalAssets: u64
    var navPerShare: u64
    var highWaterMark: u64
    var navEpoch: u64
    var lastNavTs: i64
    var pendingDeposits: u64
    var pendingWithdrawalShares: u64
    var unclaimedManagerFeeShares: u64
    var unclaimedPlatformFeeShares: u64
    var epochOutflow: u64
    var nextStrategyId: u32
    var performanceFeeBps: u16
    var managementFeeBps: u16
    var status: Status
    var depositPaused: bool
    var withdrawalPaused: bool
    var minDeposit: u64
    var minWithdrawalShares: u64
    var feeEffectiveTs: i64
    var pendingPerformanceFeeBps: u16
    var pendingManagementFeeBps: u16
    var openStrategyCount: u32

    /** The account as a value. */
    function State(): VaultState
      reads this
    {
      VaultState(
        depositCap, totalAssets, navPerShare, highWaterMark, navEpoch, lastNavTs,
        pendingDeposits, pendingWithdrawalShares, unclaimedManagerFeeShares, unclaimedPlatformFeeShares,
        epochOutflow, nextStrategyId, performanceFeeBps, managementFeeBps, status, depositPaused,
        withdrawalPaused, minDeposit, minWithdrawalShares, feeEffectiveTs, pendingPerformanceFeeBps,
        pendingManagementFeeBps, openStrategyCount)
    }

    /** A new vault. */
    constructor New(args: NewVaultArgs)
      ensures State() == NewVault(args)
    {
      depositCap, minDeposit, minWithdrawalShares := args.depositCap, args.minDeposit, args.minWithdrawalShares;
      performanceFeeBps, managementFeeBps := args.performanceFeeBps, args.managementFeeBps;
      totalAssets, navPerShare, highWaterMark := 0, NAV_PRECISION, NAV_PRECISION;
      navEpoch, lastNavTs, epochOutflow := 0, args.currentTs, 0;
      pendingDeposits, pendingWithdrawalShares := 0, 0;
      unclaimedManagerFeeShares, unclaimedPlatformFeeShares := 0, 0;
      nextStrategyId, openStrategyCount := 0, 0;
      status, depositPaused, withdrawalPaused := Normal, false, false;
      feeEffectiveTs, pendingPerformanceFeeBps, pendingManagementFeeBps := 0, 0, 0;
    }

    /** A vault with the bytes of `v`. */
    constructor (v: VaultState)
      ensures State() == v
    {
      depositCap := v.depositCap;
      totalAssets := v.totalAssets;
      navPerShare := v.navPerShare;
      highWaterMark := v.highWaterMark;
      navEpoch := v.navEpoch;
      lastNavTs := v.lastNavTs;
      pendingDeposits := v.pendingDeposits;
      pendingWithdrawalShares := v.pendingWithdrawalShares;
      unclaimedManagerFeeShares := v.unclaimedManagerFeeShares;
      unclaimedPlatformFeeShares := v.unclaimedPlatformFeeShares;
      epochOutflow := v.epochOutflow;
      nextStrategyId := v.nextStrategyId;
      performanceFeeBps := v.performanceFeeBps;
      managementFeeBps := v.managementFeeBps;
      status := v.status;
      depositPaused := v.depositPaused;
      withdrawalPaused := v.withdrawalPaused;
      minDeposit := v.minDeposit;
      minWithdrawalShares := v.minWithdrawalShares;
      feeEffectiveTs := v.feeEffectiveTs;
      pendingPerformanceFeeBps := v.pendingPerformanceFeeBps;
      pendingManagementFeeBps := v.pendingManagementFeeBps;
      openStrategyCount := v.openStrategyCount;
    }

    static method CheckedManagementFee(totalAssets: u128, feeBps: u16, elapsed: u128) returns (r: Result<u128>)
      requires totalAssets <= U64_MAX
      ensures r == if FeeProductFits(totalAssets, feeBps, elapsed)
                   then Ok(ManagementFee(totalAssets, feeBps, elapsed)) else Err(MathOverflow)
    {
      ManagementFeeFits(totalAssets, feeBps, elapsed);
      var scaled :- Mul(totalAssets, feeBps);
      var accrued :- Mul(scaled, elapsed);
      r := Div(accrued, SECONDS_PER_YEAR * MAX_BPS);
    }

    static method CheckedPerformanceFee(eligibleProfit: u128, feeBps: u16) returns (r: Result<u128>)
      requires eligibleProfit <= U64_MAX
      ensures r == Ok(PerformanceFee(eligibleProfit, feeBps))
    {
      PerformanceFeeFits(eligibleProfit, feeBps);
      var scaled :- Mul(eligibleProfit, feeBps);
      r := Div(scaled, MAX_BPS);
    }

    /** The eligible profit of a post, through the gross NAV. */
    static method CheckedProfit(totalAssets: u128, supply: u128, highWaterMark: u64) returns (r: Result<u128>)
      requires totalAssets <= U64_MAX && 0 < supply <= U64_MAX
      ensures r == Ok(EligibleProfit(totalAssets, supply, highWaterMark))
    {
      ProfitFits(totalAssets, supply, highWaterMark);
      var scaledAssets :- Mul(totalAssets, NAV_PRECISION);
      var grossNav :- Div(scaledAssets, supply);
      if grossNav > highWaterMark {
        var gain :- Sub(grossNav, highWaterMark);
        var scaledGain :- Mul(gain, supply);
        r := Div(scaledGain, NAV_PRECISION);
      } else {
        r := Ok(0);
      }
    }

    method ValidateNavDeviation(newNav: u64, maxNavDeviationBps: u16) returns (r: Result<()>)
      ensures r == Validate(WithinDeviation(newNav, navPerShare, maxNavDeviationBps), NavDeviationExceeded)
    {
      DeviationFits(navPerShare, maxNavDeviationBps);
      var deviation: u128 := AbsDiff(newNav, navPerShare);
      var scaled :- Mul(navPerShare, maxNavDeviationBps);
      var maxDeviation :- Div(scaled, MAX_BPS);
      r := Validate(deviation <= maxDeviation, NavDeviationExceeded);
    }

    /** The two fee amounts of a post, in the program's order of evaluation. */
    method CheckedFees(args: NavUpdateArgs, supply: u128) returns (r: Result<Fees>)
      requires supply == State().VirtualSupply(args.shareSupply) && 0 < supply <= U64_MAX
      ensures FeeProductFits(args.totalAssets, managementFeeBps, Elapsed(State(), args.now))
              && FeeProductFits(args.totalAssets, args.platformManagementFeeBps, Elapsed(State(), args.now))
              ==> r == Ok(FeesDue(State(), args)) && FeesDue(State(), args).Total() <= U128_MAX
      ensures !(FeeProductFits(args.totalAssets, managementFeeBps, Elapsed(State(), args.now))
                && FeeProductFits(args.totalAssets, args.platformManagementFeeBps, Elapsed(State(), args.now)))
              ==> r == Err(MathOverflow)
    {
      var elapsed := ToUnsigned128(SaturatingSub(args.now, lastNavTs));
      var profit :- CheckedProfit(args.totalAssets, supply, highWaterMark);
      ProfitFits(args.totalAssets, supply, highWaterMark);
      ManagementFeeFits(args.totalAssets, managementFeeBps, elapsed);
      ManagementFeeFits(args.totalAssets, args.platformManagementFeeBps, elapsed);
      PerformanceFeeFits(profit, performanceFeeBps);
      PerformanceFeeFits(profit, args.platformPerformanceFeeBps);

      var managerManagement :- CheckedManagementFee(args.totalAssets, managementFeeBps, elapsed);
      var managerPerformance :- CheckedPerformanceFee(profit, performanceFeeBps);
      var managerFee :- Add(managerManagement, managerPerformance);
      var platformManagement :- CheckedManagementFee(args.totalAssets, args.platformManagementFeeBps, elapsed);
      var platformPerformance :- CheckedPerformanceFee(profit, args.platformPerformanceFeeBps);
      var platformFee :- Add(platformManagement, platformPerformance);
      r := Ok(Fees(managerFee, platformFee));
    }

    /** The shares that pay one fee. */
    static method CheckedFeeShares(fee: u128, supply: u128, netAssets: u128) returns (r: Result<u128>)
      requires fee * supply <= U128_MAX && 0 < netAssets
      ensures r == Ok(FeeShares(fee, supply, netAssets))
    {
      var scaled :- Mul(fee, supply);
      r := Div(scaled, netAssets);
    }

    static method CheckedNav(totalAssets: u128, supply: u128) returns (r: Result<u128>)
      requires totalAssets <= U64_MAX && 0 < supply
      ensures r == Ok(NavOf(totalAssets, supply)) && r.value <= U128_MAX
    {
      var scaled :- Mul(totalAssets, NAV_PRECISION);
      r := Div(scaled, supply);
    }

    /** The fee shares, new supply and NAV of a post. */
    static method CheckedDilution(totalAssets: u128, supply: u128, managerFee: u128, platformFee: u128, totalFee: u128)
      returns (r: Result<Dilution>)
      requires totalAssets <= U64_MAX && 0 < supply <= U64_MAX && totalFee == managerFee + platformFee
      requires totalFee == 0 || totalFee < totalAssets
      ensures r == Ok(Dilute(totalAssets, supply, Fees(managerFee, platformFee)))
      ensures r.value.managerShares <= U128_MAX && r.value.platformShares <= U128_MAX && r.value.navPerShare <= U128_MAX
    {
      DilutionFits(totalAssets, supply, Fees(managerFee, platformFee));
      var netAssets :- Sub(totalAssets, totalFee);
      var managerFeeShares, platformFeeShares := 0, 0;
      if totalFee > 0 {
        managerFeeShares :- CheckedFeeShares(managerFee, supply, netAssets);
        platformFeeShares :- CheckedFeeShares(platformFee, supply, netAssets);
      }
      var grown :- Add(supply, managerFeeShares);
      var newSupply :- Add(grown, platformFeeShares);
      var nav :- CheckedNav(totalAssets, newSupply);
      r := Ok(Dilution(managerFeeShares, platformFeeShares, newSupply, nav));
    }

    /** The fee branch of a NAV post: accrues the dilution and records the NAV. */
    method AccrueFees(args: NavUpdateArgs, supply: u64) returns (r: Result<NavFeeShares>)
      requires supply == State().VirtualSupply(args.shareSupply) && 0 < supply
      modifies this
      ensures match AccruedFees(old(State()), args)
        case Ok((v, feeShares)) => r == Ok(feeShares) && State() == v
        case Err(e) => r == Err(e)
    {
      var fees :- CheckedFees(args, supply);
      var totalFee :- Add(fees.manager, fees.platform);
      var _ :- Validate(totalFee == 0 || totalFee < args.totalAssets, FeeExceedsTotalAssets);
      var dilution :- CheckedDilution(args.totalAssets, supply, fees.manager, fees.platform, totalFee);
      var newNav :- ToU64(dilution.navPerShare);
      if args.maxNavDeviationBps.Some? {
        var _ :- ValidateNavDeviation(newNav, args.maxNavDeviationBps.value);
      }
      var managerShares :- ToU64(dilution.managerShares);
      var platformShares :- ToU64(dilution.platformShares);
      var _ :- CreditFeeShares(managerShares, platformShares);
      RecordNav(newNav);
      r := Ok(NavFeeShares(managerShares, platformShares));
    }

    method CreditFeeShares(managerShares: u64, platformShares: u64) returns (r: Result<()>)
      modifies this
      ensures
        var manager, platform :=
          old(unclaimedManagerFeeShares) + managerShares, old(unclaimedPlatformFeeShares) + platformShares;
        if manager <= U64_MAX && platform <= U64_MAX then
          r == Ok(())
          && State() == old(State()).(unclaimedManagerFeeShares := manager, unclaimedPlatformFeeShares := platform)
        else
          r == Err(MathOverflow)
    {
      unclaimedManagerFeeShares :- AddU64(unclaimedManagerFeeShares, managerShares);
      unclaimedPlatformFeeShares :- AddU64(unclaimedPlatformFeeShares, platformShares);
      r := Ok(());
    }

    method RecordNav(newNav: u64)
      modifies this
      ensures State() == old(State()).(
                navPerShare := newNav,
                highWaterMark := if newNav > old(highWaterMark) then newNav else old(highWaterMark))
    {
      navPerShare := newNav;
      if newNav > highWaterMark {
        highWaterMark := newNav;
      }
    }

    /** A NAV post: charges the fees due by dilution, then stamps the NAV. One post to an epoch. */
    method UpdateNav(args: NavUpdateArgs) returns (r: Result<NavFeeShares>)
      modifies this
      ensures match PostNav(old(State()), args)
        case Ok(post) => r == Ok(post.feeShares) && State() == post.vault
        case Err(e) => r == Err(e)
    {
      var epoch := Epoch(args.now);
      var _ :- Validate(epoch > navEpoch, NavAlreadyUpdatedThisEpoch);

      // fee shares count from their accrual on, minted or not
      var withManager :- AddU64(args.shareSupply, unclaimedManagerFeeShares);
      var supply :- AddU64(withManager, unclaimedPlatformFeeShares);

      var navUpdate := NavFeeShares(0, 0);
      if supply == 0 {
        navPerShare := NAV_PRECISION;
      } else {
        navUpdate :- AccrueFees(args, supply);
      }

      // only now, with the past period charged at the rates it ran under
      ApplyPendingFees(args.now);
      Stamp(args.totalAssets, epoch, args.now);
      r := Ok(navUpdate);
    }

    method Stamp(newTotalAssets: u64, epoch: u64, now: i64)
      modifies this
      ensures State() == old(State()).(totalAssets := newTotalAssets, navEpoch := epoch, lastNavTs := now, epochOutflow := 0)
    {
      totalAssets := newTotalAssets;
      navEpoch := epoch;
      lastNavTs := now;
      epochOutflow := 0;
    }

    method RequestDeposit(amount: u64) returns (r: Result<()>)
      modifies this
      ensures match VaultModel.RequestDeposit(old(State()), amount)
        case Ok(v) => r == Ok(()) && State() == v
        case Err(e) => r == Err(e)
    {
      var _ :- Validate(navPerShare > 0, VaultNavIsZero);
      var _ :- Validate(amount >= minDeposit, DepositBelowMinimum);
      pendingDeposits :- AddU64(pendingDeposits, amount);
      var committed :- AddU64(totalAssets, pendingDeposits);
      var _ :- Validate(committed <= depositCap, DepositCapReached);
      r := Ok(());
    }

    method CancelDeposit(amount: u64) returns (r: Result<()>)
      modifies this
      ensures match VaultModel.CancelDeposit(old(State()), amount)
        case Ok(v) => r == Ok(()) && State() == v
        case Err(e) => r == Err(e)
    {
      pendingDeposits :- SubU64(pendingDeposits, amount);
      r := Ok(());
    }

    method ResolveDeposit(amount: u64) returns (r: Result<u64>)
      modifies this
      ensures match VaultModel.ResolveDeposit(old(State()), amount)
        case Ok(s) => r == Ok(s.output) && State() == s.vault
        case Err(e) => r == Err(e)
    {
      var _ :- Validate(navPerShare > 0, VaultNavIsZero);
      MulMono2(amount, U64_MAX, NAV_PRECISION, NAV_PRECISION);
      var scaled :- Mul(amount, NAV_PRECISION);
      var quotient :- Div(scaled, navPerShare);
      var shares :- ToU64(quotient);
      var _ :- Validate(shares > 0, ZeroSharesMinted);
      pendingDeposits :- SubU64(pendingDeposits, amount);
      totalAssets :- AddU64(totalAssets, amount);
      r := Ok(shares);
    }

    method RequestWithdrawal(shares: u64, shareBalance: nat) returns (r: Result<()>)
      modifies this
      ensures match VaultModel.RequestWithdrawal(old(State()), shares, shareBalance)
        case Ok(v) => r == Ok(()) && State() == v
        case Err(e) => r == Err(e)
    {
      // everything one holds may leave at once, however little it is
      var _ :- Validate(shares >= minWithdrawalShares || shares == shareBalance, WithdrawalBelowMinimum);
      pendingWithdrawalShares :- AddU64(pendingWithdrawalShares, shares);
      r := Ok(());
    }

    method CancelWithdrawal(shares: u64) returns (r: Result<()>)
      modifies this
      ensures match VaultModel.CancelWithdrawal(old(State()), shares)
        case Ok(v) => r == Ok(()) && State() == v
        case Err(e) => r == Err(e)
    {
      pendingWithdrawalShares :- SubU64(pendingWithdrawalShares, shares);
      r := Ok(());
    }

    /** The cap is computed and then ignored, as in the program. */
    method ResolveWithdrawal(shares: u64, maxEpochOutflowBps: u16) returns (r: Result<u64>)
      modifies this
      ensures match VaultModel.ResolveWithdrawal(old(State()), shares)
        case Ok(s) => r == Ok(s.output) && State() == s.vault
        case Err(e) => r == Err(e)
    {
      pendingWithdrawalShares :- SubU64(pendingWithdrawalShares, shares);
      MulMono2(shares, U64_MAX, navPerShare, U64_MAX);
      var scaled :- Mul(shares, navPerShare);
      var quotient :- Div(scaled, NAV_PRECISION);
      var amount :- ToU64(quotient);

      MulMono2(totalAssets + epochOutflow, 2 * U64_MAX, maxEpochOutflowBps, U16_MAX);
      var outstanding :- Add(totalAssets, epochOutflow);
      var scaledOutflow :- Mul(outstanding, maxEpochOutflowBps);
      var maxEpochOutflow :- Div(scaledOutflow, MAX_BPS);

      epochOutflow :- AddU64(epochOutflow, amount);
      totalAssets :- SubU64(totalAssets, amount);
      r := Ok(amount);
    }

    method UpdateFees(performance: Option<u16>, management: Option<u16>, now: i64) returns (r: Result<()>)
      modifies this
      ensures match VaultModel.UpdateFees(old(State()), performance, management, now)
        case Ok(v) => r == Ok(()) && State() == v
        case Err(e) => r == Err(e)
    {
      // a rate left out is asked for again as it was last
      var currentPerformance, currentManagement := performanceFeeBps, managementFeeBps;
      if feeEffectiveTs != 0 {
        currentPerformance, currentManagement := pendingPerformanceFeeBps, pendingManagementFeeBps;
      }
      var newPerformance := performance.UnwrapOr(currentPerformance);
      var newManagement := management.UnwrapOr(currentManagement);
      var _ :- Validate(newPerformance <= MAX_BPS && newManagement <= MAX_BPS, InvalidBasisPoints);
      if newPerformance <= performanceFeeBps && newManagement <= managementFeeBps {
        SetLiveFees(newPerformance, newManagement);
      } else {
        var _ :- ScheduleFees(newPerformance, newManagement, now);
      }
      r := Ok(());
    }

    method ScheduleFees(performance: u16, management: u16, now: i64) returns (r: Result<()>)
      modifies this
      ensures if now + FEE_INCREASE_DELAY <= I64_MAX then
                r == Ok(())
                && State() == old(State()).(pendingPerformanceFeeBps := performance, pendingManagementFeeBps := management,
                                            feeEffectiveTs := now + FEE_INCREASE_DELAY)
              else
                r == Err(MathOverflow)
    {
      pendingPerformanceFeeBps := performance;
      pendingManagementFeeBps := management;
      feeEffectiveTs :- AddI64(now, FEE_INCREASE_DELAY);
      r := Ok(());
    }

    method ApplyPendingFees(now: i64)
      modifies this
      ensures State() == VaultModel.ApplyPendingFees(old(State()), now)
    {
      if feeEffectiveTs != 0 && now >= feeEffectiveTs {
        SetLiveFees(pendingPerformanceFeeBps, pendingManagementFeeBps);
      }
    }

    /** Makes a pair of rates live and forgets any pending pair. */
    method SetLiveFees(performance: u16, management: u16)
      modifies this
      ensures State() == old(State()).(performanceFeeBps := performance, managementFeeBps := management,
                                       pendingPerformanceFeeBps := 0, pendingManagementFeeBps := 0, feeEffectiveTs := 0)
    {
      performanceFeeBps := performance;
      managementFeeBps := management;
      ClearPendingFees();
    }

    method ClearPendingFees()
      modifies this
      ensures State() == old(State()).(pendingPerformanceFeeBps := 0, pendingManagementFeeBps := 0, feeEffectiveTs := 0)
    {
      pendingPerformanceFeeBps := 0;
      pendingManagementFeeBps := 0;
      feeEffectiveTs := 0;
    }

    method ClaimManagerFee() returns (r: Result<u64>)
      modifies this
      ensures match VaultModel.ClaimManagerFee(old(State()))
        case Ok(s) => r == Ok(s.output) && State() == s.vault
        case Err(e) => r == Err(e)
    {
      var shares := unclaimedManagerFeeShares;
      var _ :- Validate(shares > 0, NoFeeToClaim);
      unclaimedManagerFeeShares := 0;
      r := Ok(shares);
    }

    method ClaimPlatformFee() returns (r: Result<u64>)
      modifies this
      ensures match VaultModel.ClaimPlatformFee(old(State()))
        case Ok(s) => r == Ok(s.output) && State() == s.vault
        case Err(e) => r == Err(e)
    {
      var shares := unclaimedPlatformFeeShares;
      var _ :- Validate(shares > 0, NoFeeToClaim);
      unclaimedPlatformFeeShares := 0;
      r := Ok(shares);
    }

    method OpenStrategy() returns (r: Result<()>)
      modifies this
      ensures match VaultModel.OpenStrategy(old(State()))
        case Ok(v) => r == Ok(()) && State() == v
        case Err(e) => r == Err(e)
    {
      nextStrategyId :- AddU32(nextStrategyId, 1);
      openStrategyCount :- AddU32(openStrategyCount, 1);
      r := Ok(());
    }

    method CloseStrategy() returns (r: Result<()>)
      modifies this
      ensures match VaultModel.CloseStrategy(old(State()))
        case Ok(v) => r == Ok(()) && State() == v
        case Err(e) => r == Err(e)
    {
      openStrategyCount :- SubU32(openStrategyCount, 1);
      r := Ok(());
    }
  }
}
