/**
 A run in which a request does not get the first NAV posted in a later epoch, as documented, but the second.
 User 7 deposits and is settled, so that there are shares to price; user 8 deposits in epoch 1; posts follow
 in epochs 2 and 3, at twice and four times the initial NAV; and only then is user 8 settled, at the later one.
 */
module LateSettlement {
  import opened Words
  import opened Tables
  import opened VaultModel
  import opened Protocol
  import opened Runs
  import opened ForwardPricing
  import opened Founding

  const EPOCH_2: i64 := 28_800
  const EPOCH_3: i64 := 43_200

  function Late(): Genesis {
    Genesis(NewVaultArgs(100, 1, 1, 0, 0, 0), Config(Normal, 4, 0, 0, 0, 0, 0, 5, 6, 300, 0), 1, 2, 3, map[7 := 10, 8 := 10], 0)
  }

  /** Open for business, without fees, and able to take in 100. */
  predicate FreeOfFees(a: Accounts) {
    var v := a.vault;
    !a.closed && a.config.status == Normal && v.status == Normal && !v.depositPaused
    && v.depositCap == 100 && v.minDeposit == 1
    && v.performanceFeeBps == 0 && v.managementFeeBps == 0 && v.feeEffectiveTs == 0
    && a.config.platformPerformanceFeeBps == 0 && a.config.platformManagementFeeBps == 0
    && v.unclaimedManagerFeeShares == 0 && v.unclaimedPlatformFeeShares == 0
  }

  // The kinds of step

  lemma ZeroRates(totalAssets: nat, profit: nat, elapsed: nat)
    ensures ManagementFee(totalAssets, 0, elapsed) == 0 && FeeProductFits(totalAssets, 0, elapsed)
    ensures PerformanceFee(profit, 0) == 0
  {
    assert totalAssets * 0 * elapsed == 0;
  }

  /** Without rates there are no fees. */
  lemma FreePost(v: VaultState, args: NavUpdateArgs)
    requires v.performanceFeeBps == 0 && v.managementFeeBps == 0
    requires args.platformPerformanceFeeBps == 0 && args.platformManagementFeeBps == 0
    requires 0 < v.VirtualSupply(args.shareSupply)
    ensures FeesDue(v, args) == Fees(0, 0) && FeeProductFits(args.totalAssets, 0, Elapsed(v, args.now))
  {
    var profit := EligibleProfit(args.totalAssets, v.VirtualSupply(args.shareSupply), v.highWaterMark);
    ZeroRates(args.totalAssets, profit, Elapsed(v, args.now));
  }

  /** The accounts after an override without fees. */
  function Overridden(a: Accounts, now: i64, totalAssets: u64, nav: u64): Accounts {
    a.(vault := a.vault.(navPerShare := nav, highWaterMark := nav,
                         totalAssets := totalAssets, navEpoch := Epoch(now), lastNavTs := now, epochOutflow := 0))
  }

  lemma Overrides(a: Accounts, now: i64, totalAssets: u64, nav: u64)
    requires FreeOfFees(a) && a.vault.navEpoch < Epoch(now) && a.idle <= totalAssets
    requires 0 < a.shareSupply && nav == NavOf(totalAssets, a.shareSupply)
    requires a.vault.highWaterMark <= nav
    ensures Post(a, now, totalAssets, None) == Ok(Outcome(
              Overridden(a, now, totalAssets, nav),
              NavPosted(totalAssets, nav, NavFeeShares(0, 0), a.shareSupply, None)))
  {
    FreePost(a.vault, PostArgs(a, now, totalAssets, None));
  }

  // The run

  /** A point of the run: the state of the vault, and the deposit that is pending, if any. */
  predicate Stage(m: Machine, supply: nat, assets: nat, nav: nat, navEpoch: int, pending: Option<(Key, int)>) {
    var a := m.accounts;
    FreeOfFees(a) && a.shareSupply == supply == a.idle
    && a.vault.totalAssets == assets && a.vault.navPerShare == nav == a.vault.highWaterMark && a.vault.navEpoch == navEpoch
    && match pending
       case None => a.deposits == map[] && a.vault.pendingDeposits == 0 == a.depositEscrow
       case Some((user, epoch)) =>
         a.deposits.Keys == {user} && a.deposits[user].amount == 10 && a.deposits[user].epoch == epoch
         && a.vault.pendingDeposits == 10 == a.depositEscrow
  }

  /** `m'` comes right after `m`, by a transaction at `now` that emitted `e`. */
  ghost predicate Follows(m: Machine, m': Machine, now: i64, e: Event) {
    Reachable(m') && m'.now == now && m'.log == m.log + [Entry(now, e)]
  }

  lemma DepositStage(m: Machine, now: i64, user: Key, supply: nat, assets: nat, nav: nat, navEpoch: int) returns (m': Machine)
    requires Reachable(m) && m.now <= now && Stage(m, supply, assets, nav, navEpoch, None)
    requires 10 <= Balance(m.accounts.tokens, user) && 0 < nav && assets <= 90
    ensures Follows(m, m', now, DepositRequested(user, 10))
    ensures Stage(m', supply, assets, nav, navEpoch, Some((user, Epoch(now))))
  {
    m' := Step(m, Tx(now, DepositCreate(user, 10)));
    Deposits(m.accounts, now, user, 10);
    StepStaysReachable(m, Tx(now, DepositCreate(user, 10)));
  }

  lemma PostStage(m: Machine, now: i64, supply: nat, assets: u64, nav: u64, before: nat, navBefore: nat, navEpoch: int,
                  pending: Option<(Key, int)>) returns (m': Machine)
    requires Reachable(m) && m.now <= now && Stage(m, supply, before, navBefore, navEpoch, pending)
    requires navEpoch < Epoch(now) && supply <= assets && navBefore <= nav
    requires 0 < supply && nav == NavOf(assets, supply)
    ensures Follows(m, m', now, NavPosted(assets, nav, NavFeeShares(0, 0), supply, None))
    ensures Stage(m', supply, assets, nav, Epoch(now), pending)
  {
    Overrides(m.accounts, now, assets, nav);
    PostSteps(m, now, assets, Post(m.accounts, now, assets, None).value);
    m' := Step(m, Tx(now, NavOverride(assets)));
    StepStaysReachable(m, Tx(now, NavOverride(assets)));
  }

  lemma SettleStage(m: Machine, now: i64, user: Key, epoch: int, minted: u64, supply: nat, assets: nat, nav: u64, navEpoch: int)
    returns (m': Machine)
    requires Reachable(m) && m.now <= now && Stage(m, supply, assets, nav, navEpoch, Some((user, epoch)))
    requires epoch < navEpoch && 0 < nav && minted == SharesFor(10, nav) && 0 < minted <= 10 && supply <= 10 && assets <= 90
    ensures Follows(m, m', now, DepositResolved(user, 10, minted, nav))
  {
    m' := Step(m, Tx(now, DepositResolve(user)));
    Settles(m.accounts, user, 10, minted);
    StepStaysReachable(m, Tx(now, DepositResolve(user)));
  }

  lemma EpochsOfRun()
    ensures Epoch(EPOCH_1) == 1 && Epoch(EPOCH_2) == 2 && Epoch(EPOCH_3) == 3
  {
  }

  lemma SharesOfRun()
    ensures SharesFor(10, NAV_PRECISION) == 10 && SharesFor(10, 2 * NAV_PRECISION) == 5 && SharesFor(10, 4 * NAV_PRECISION) == 2
    ensures NavOf(20, 10) == 2 * NAV_PRECISION && NavOf(40, 10) == 4 * NAV_PRECISION
  {
  }

  function LateLog(): Log {
    [Entry(0, DepositRequested(7, 10)),
     Entry(EPOCH_1, NavPosted(0, NAV_PRECISION, NavFeeShares(0, 0), 0, None)),
     Entry(EPOCH_1, DepositResolved(7, 10, 10, NAV_PRECISION)),
     Entry(EPOCH_1, DepositRequested(8, 10)),
     Entry(EPOCH_2, NavPosted(20, 2 * NAV_PRECISION, NavFeeShares(0, 0), 10, None)),
     Entry(EPOCH_3, NavPosted(40, 4 * NAV_PRECISION, NavFeeShares(0, 0), 10, None)),
     Entry(EPOCH_3, DepositResolved(8, 10, 2, 4 * NAV_PRECISION))]
  }

  lemma LateFounded() returns (m: Machine)
    ensures Reachable(m) && m.now == EPOCH_1 && m.log == FoundingLog(10)
    ensures Stage(m, 10, 10, NAV_PRECISION, 1, None) && Balance(m.accounts.tokens, 8) == 10
  {
    m := Founds(Late(), 10);
  }

  lemma LateRequest() returns (m: Machine)
    ensures Reachable(m) && m.now == EPOCH_1 && m.log == LateLog()[..4]
    ensures Stage(m, 10, 10, NAV_PRECISION, 1, Some((8, 1)))
  {
    EpochsOfRun();
    m := LateFounded();
    m := DepositStage(m, EPOCH_1, 8, 10, 10, NAV_PRECISION, 1);
  }

  /** The run exists. */
  lemma LateRun() returns (m: Machine)
    ensures Reachable(m) && m.log == LateLog()
  {
    EpochsOfRun();
    SharesOfRun();
    m := LateRequest();
    m := PostStage(m, EPOCH_2, 10, 20, 2 * NAV_PRECISION, 10, NAV_PRECISION, 1, Some((8, 1)));
    m := PostStage(m, EPOCH_3, 10, 40, 4 * NAV_PRECISION, 20, 2 * NAV_PRECISION, 2, Some((8, 1)));
    m := SettleStage(m, EPOCH_3, 8, 1, 2, 10, 40, 4 * NAV_PRECISION, 3);
  }

  /**
   The documented rule fails of it: the deposit of user 8, made in epoch 1, was settled at the post of epoch 3
   for 2 shares, although the first post of a later epoch is that of epoch 2, where it would have got 5.
   */
  lemma SettledAtSecondPost(log: Log)
    requires log == LateLog()
    ensures log[3].event == DepositRequested(8, 10) && Epoch(log[3].now) == 1
    ensures FirstLaterPost(log[..6], 4, 1) && LastPost(log[..6]) == 5
    ensures log[6].event == DepositResolved(8, 10, 2, log[5].event.navPerShare)
    ensures SharesFor(10, log[4].event.navPerShare) == 5
  {
    EpochsOfRun();
    SharesOfRun();
    var before := log[..6];
    assert before[5].event.NavPosted?;
  }
}
