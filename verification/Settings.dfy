/**
 Settings, and what they bind. An update changes what it names and nothing else, the next instructions obey what
 is set, and the ways out and the posts are under no gate.
 */
module Settings {
  import opened Words
  import opened Tables
  import opened VaultModel
  import opened Protocol

  /** A field after an update: what was given, or what it was. */
  predicate Given<T(==)>(asked: Option<T>, before: T, after: T) {
    match asked
    case Some(value) => after == value
    case None => after == before
  }

  // The vault

  /** A vault update moves the fields that it names, and fee rates apart leaves everything else as it was. */
  lemma VaultUpdateMovesWhatItNames(a: Accounts, now: i64, args: VaultUpdateArgs, o: Outcome)
    requires Apply(a, now, VaultUpdate(args)) == Ok(o)
    ensures var v, v' := a.vault, o.accounts.vault;
      Given(args.depositCap, v.depositCap, v'.depositCap)
      && Given(args.minDeposit, v.minDeposit, v'.minDeposit) && (args.minDeposit.Some? ==> 0 < v'.minDeposit)
      && Given(args.minWithdrawalShares, v.minWithdrawalShares, v'.minWithdrawalShares)
      && (args.minWithdrawalShares.Some? ==> 0 < v'.minWithdrawalShares)
      && Given(args.status, v.status, v'.status)
      && Given(args.depositPaused, v.depositPaused, v'.depositPaused)
      && Given(args.withdrawalPaused, v.withdrawalPaused, v'.withdrawalPaused)
      && v' == v.(
           depositCap := v'.depositCap, minDeposit := v'.minDeposit, minWithdrawalShares := v'.minWithdrawalShares,
           status := v'.status, depositPaused := v'.depositPaused, withdrawalPaused := v'.withdrawalPaused,
           performanceFeeBps := v'.performanceFeeBps, managementFeeBps := v'.managementFeeBps,
           feeEffectiveTs := v'.feeEffectiveTs, pendingPerformanceFeeBps := v'.pendingPerformanceFeeBps,
           pendingManagementFeeBps := v'.pendingManagementFeeBps)
      && o.accounts == a.(vault := v')
  {
  }

  /** Which vault updates are refused. A rate left out is asked for again as it last was, pending or live. */
  lemma VaultUpdateAccepted(a: Accounts, now: i64, args: VaultUpdateArgs)
    ensures var v := a.vault;
      var performance := match args.performanceFeeBps
        case Some(asked) => asked
        case None => if v.feeEffectiveTs != 0 then v.pendingPerformanceFeeBps else v.performanceFeeBps;
      var management := match args.managementFeeBps
        case Some(asked) => asked
        case None => if v.feeEffectiveTs != 0 then v.pendingManagementFeeBps else v.managementFeeBps;
      Apply(a, now, VaultUpdate(args)).Ok? <==>
      !a.closed && args.minDeposit != Some(0) && args.minWithdrawalShares != Some(0)
      && (args.performanceFeeBps.Some? || args.managementFeeBps.Some? ==>
            performance <= 10_000 && management <= 10_000
            && ((performance <= v.performanceFeeBps && management <= v.managementFeeBps) || now + 604_800 <= I64_MAX))
  {
  }

  /** Pausing a vault stops what its status gates, and changes nothing else. */
  lemma PauseStops(a: Accounts, now: i64, o: Outcome)
    requires Apply(a, now, VaultPause) == Ok(o)
    ensures o.accounts.vault.status == Paused && o.accounts == a.(vault := a.vault.(status := Paused))
  {
  }

  // The configuration

  /** A config update moves the fields that it names; zero keys, rates above 100% and a zero cap on slippage are refused. */
  lemma ConfigUpdateMovesWhatItNames(a: Accounts, now: i64, changes: ConfigUpdateArgs, o: Outcome)
    requires Apply(a, now, ConfigUpdate(changes)) == Ok(o)
    ensures var c, c' := a.config, o.accounts.config;
      Given(changes.treasuryAuthority, c.treasuryAuthority, c'.treasuryAuthority)
      && Given(changes.platformPerformanceFeeBps, c.platformPerformanceFeeBps, c'.platformPerformanceFeeBps)
      && Given(changes.platformManagementFeeBps, c.platformManagementFeeBps, c'.platformManagementFeeBps)
      && Given(changes.maxNavDeviationBps, c.maxNavDeviationBps, c'.maxNavDeviationBps)
      && Given(changes.maxEpochOutflowBps, c.maxEpochOutflowBps, c'.maxEpochOutflowBps)
      && Given(changes.maxSlippageBps, c.maxSlippageBps, c'.maxSlippageBps)
      && Given(changes.status, c.status, c'.status)
      && Given(changes.pendingAdmin, c.pendingAdmin, c'.pendingAdmin)
      && Given(changes.navUpdater, c.navUpdater, c'.navUpdater)
      && Given(changes.guardian, c.guardian, c'.guardian)
      && c'.nextVaultId == c.nextVaultId
      && o.accounts == a.(config := c')
  {
  }

  /** A rate that is given is at most 100%. */
  predicate Capped(bps: Option<u16>) {
    bps.Some? ==> bps.value <= 10_000
  }

  /** Which config updates are refused: zero keys first, then rates above 100% or a zero cap on slippage. */
  lemma ConfigUpdateAccepted(a: Accounts, now: i64, changes: ConfigUpdateArgs)
    ensures var r := Apply(a, now, ConfigUpdate(changes));
      var keys := changes.pendingAdmin != Some(0) && changes.navUpdater != Some(0)
                  && changes.treasuryAuthority != Some(0) && changes.guardian != Some(0);
      var rates := Capped(changes.platformPerformanceFeeBps) && Capped(changes.platformManagementFeeBps)
                   && Capped(changes.maxNavDeviationBps) && Capped(changes.maxEpochOutflowBps)
                   && Capped(changes.maxSlippageBps) && changes.maxSlippageBps != Some(0);
      (r.Ok? <==> keys && rates) && (r.Err? ==> r.error == if keys then InvalidBasisPoints else InvalidPubkey)
  {
  }

  // What the settings bind

  /** Deposits need a normal protocol and vault; withdrawals go on while either only reduces. */
  lemma GatesHold(a: Accounts, now: i64, ix: Instruction)
    requires Apply(a, now, ix).Ok?
    ensures ix.DepositCreate? || ix.DepositResolve? ==>
              a.config.status == Normal && a.vault.status == Normal && !a.vault.depositPaused
    ensures ix.WithdrawalCreate? || ix.WithdrawalResolve? ==>
              a.config.status in {Normal, ReduceOnly} && a.vault.status in {Normal, ReduceOnly} && !a.vault.withdrawalPaused
    ensures ix.StrategyInitialize? ==> a.config.status == Normal && a.vault.status == Normal
    ensures ix.StrategyClose? ==> a.config.status in {Normal, ReduceOnly} && a.vault.status in {Normal, ReduceOnly}
  {
  }

  /** The accounts under other gates. */
  function Gated(a: Accounts, protocol: Status, vault: Status, depositPaused: bool, withdrawalPaused: bool): Accounts {
    a.(config := a.config.(status := protocol),
       vault := a.vault.(status := vault, depositPaused := depositPaused, withdrawalPaused := withdrawalPaused))
  }

  /** Taking back, rejecting and claiming are under no gate: they do the same whatever the gates say. */
  lemma RefundsAreUngated(a: Accounts, now: i64, ix: Instruction, protocol: Status, vault: Status, dp: bool, wp: bool)
    requires ix.DepositCancel? || ix.DepositReject? || ix.WithdrawalCancel? || ix.WithdrawalReject?
             || ix.ClaimManager? || ix.ClaimPlatform?
    ensures match Apply(a, now, ix)
      case Ok(o) => Apply(Gated(a, protocol, vault, dp, wp), now, ix)
                    == Ok(Outcome(Gated(o.accounts, protocol, vault, dp, wp), o.event))
      case Err(e) => Apply(Gated(a, protocol, vault, dp, wp), now, ix) == Err(e)
  {
  }

  lemma PostingIsUngated(v: VaultState, args: NavUpdateArgs, status: Status, dp: bool, wp: bool)
    ensures var gated := v.(status := status, depositPaused := dp, withdrawalPaused := wp);
      match PostNav(v, args)
      case Ok(post) =>
        PostNav(gated, args)
        == Ok(NavPost(post.vault.(status := status, depositPaused := dp, withdrawalPaused := wp), post.feeShares))
      case Err(e) => PostNav(gated, args) == Err(e)
  {
    var gated := v.(status := status, depositPaused := dp, withdrawalPaused := wp);
    if 0 < v.VirtualSupply(args.shareSupply) {
      assert FeesDue(gated, args) == FeesDue(v, args);
      RecordingIsUngated(v, args, FeesDue(v, args), status, dp, wp);
    }
  }

  lemma RecordingIsUngated(v: VaultState, args: NavUpdateArgs, fees: Fees, status: Status, dp: bool, wp: bool)
    requires 0 < v.VirtualSupply(args.shareSupply)
    ensures var gated := v.(status := status, depositPaused := dp, withdrawalPaused := wp);
      match Accrue(v, args, fees)
      case Ok((v', feeShares)) =>
        Accrue(gated, args, fees) == Ok((v'.(status := status, depositPaused := dp, withdrawalPaused := wp), feeShares))
      case Err(e) => Accrue(gated, args, fees) == Err(e)
  {
    if fees.Total() == 0 || fees.Total() < args.totalAssets {
      var d := Dilute(args.totalAssets, v.VirtualSupply(args.shareSupply), fees);
      DilutingIsUngated(v, args.maxNavDeviationBps, d, status, dp, wp);
    }
  }

  lemma DilutingIsUngated(v: VaultState, bound: Option<u16>, d: Dilution, status: Status, dp: bool, wp: bool)
    ensures var gated := v.(status := status, depositPaused := dp, withdrawalPaused := wp);
      match RecordDilution(v, bound, d)
      case Ok((v', feeShares)) =>
        RecordDilution(gated, bound, d) == Ok((v'.(status := status, depositPaused := dp, withdrawalPaused := wp), feeShares))
      case Err(e) => RecordDilution(gated, bound, d) == Err(e)
  {
  }

  /** Neither is posting a NAV. */
  lemma PostsAreUngated(a: Accounts, now: i64, ix: Instruction, protocol: Status, vault: Status, dp: bool, wp: bool)
    requires ix.IsPost()
    ensures match Apply(a, now, ix)
      case Ok(o) => Apply(Gated(a, protocol, vault, dp, wp), now, ix)
                    == Ok(Outcome(Gated(o.accounts, protocol, vault, dp, wp), o.event))
      case Err(e) => Apply(Gated(a, protocol, vault, dp, wp), now, ix) == Err(e)
  {
    if ix.NavUpdate? {
      UpdateIsUngated(a, now, ix.totalAssets, protocol, vault, dp, wp);
    } else {
      OverrideIsUngated(a, now, ix.totalAssets, protocol, vault, dp, wp);
    }
  }

  lemma UpdateIsUngated(a: Accounts, now: i64, totalAssets: u64, protocol: Status, vault: Status, dp: bool, wp: bool)
    ensures match Apply(a, now, NavUpdate(totalAssets))
      case Ok(o) => Apply(Gated(a, protocol, vault, dp, wp), now, NavUpdate(totalAssets))
                    == Ok(Outcome(Gated(o.accounts, protocol, vault, dp, wp), o.event))
      case Err(e) => Apply(Gated(a, protocol, vault, dp, wp), now, NavUpdate(totalAssets)) == Err(e)
  {
    PostIsUngated(a, now, totalAssets, Some(a.config.maxNavDeviationBps), protocol, vault, dp, wp);
  }

  lemma OverrideIsUngated(a: Accounts, now: i64, totalAssets: u64, protocol: Status, vault: Status, dp: bool, wp: bool)
    ensures match Apply(a, now, NavOverride(totalAssets))
      case Ok(o) => Apply(Gated(a, protocol, vault, dp, wp), now, NavOverride(totalAssets))
                    == Ok(Outcome(Gated(o.accounts, protocol, vault, dp, wp), o.event))
      case Err(e) => Apply(Gated(a, protocol, vault, dp, wp), now, NavOverride(totalAssets)) == Err(e)
  {
    PostIsUngated(a, now, totalAssets, None, protocol, vault, dp, wp);
  }

  lemma PostIsUngated(a: Accounts, now: i64, totalAssets: u64, bound: Option<u16>,
                      protocol: Status, vault: Status, dp: bool, wp: bool)
    ensures match Post(a, now, totalAssets, bound)
      case Ok(o) => Post(Gated(a, protocol, vault, dp, wp), now, totalAssets, bound)
                    == Ok(Outcome(Gated(o.accounts, protocol, vault, dp, wp), o.event))
      case Err(e) => Post(Gated(a, protocol, vault, dp, wp), now, totalAssets, bound) == Err(e)
  {
    PostingIsUngated(a.vault, PostArgs(a, now, totalAssets, bound), vault, dp, wp);
  }

  /** What an update sets, the next request obeys. */
  lemma UpdatesBind(a: Accounts, now: i64, args: VaultUpdateArgs, later: i64, ix: Instruction)
    requires Apply(a, now, VaultUpdate(args)).Ok? && Apply(Apply(a, now, VaultUpdate(args)).value.accounts, later, ix).Ok?
    ensures ix.DepositCreate? ==>
              (args.minDeposit.Some? ==> args.minDeposit.value <= ix.amount)
              && (args.depositCap.Some? ==> a.vault.totalAssets + a.vault.pendingDeposits + ix.amount <= args.depositCap.value)
    ensures ix.WithdrawalCreate? && args.minWithdrawalShares.Some? ==>
              args.minWithdrawalShares.value <= ix.amount || ix.amount == Balance(a.shares, ix.user)
    ensures ix.DepositCreate? || ix.DepositResolve? ==>
              args.depositPaused != Some(true) && args.status != Some(Paused) && args.status != Some(ReduceOnly)
    ensures ix.WithdrawalCreate? || ix.WithdrawalResolve? ==> args.withdrawalPaused != Some(true) && args.status != Some(Paused)
  {
    var o := Apply(a, now, VaultUpdate(args)).value;
    VaultUpdateMovesWhatItNames(a, now, args, o);
    GatesHold(o.accounts, later, ix);
    LimitsHold(o.accounts, later, ix);
  }

  lemma LimitsHold(a: Accounts, now: i64, ix: Instruction)
    requires Apply(a, now, ix).Ok?
    ensures ix.DepositCreate? ==>
              a.vault.minDeposit <= ix.amount && a.vault.totalAssets + a.vault.pendingDeposits + ix.amount <= a.vault.depositCap
    ensures ix.WithdrawalCreate? ==> a.vault.minWithdrawalShares <= ix.amount || ix.amount == Balance(a.shares, ix.user)
  {
  }
}
