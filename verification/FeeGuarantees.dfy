/**
 What the program guarantees about fees and NAV in every reachable state: the high-water mark, the fee
 timelock, the NAV speed limit, and when a NAV post is defined.
 */
module FeeGuarantees {
  import opened Words
  import opened Arithmetic
  import opened VaultModel
  import opened VaultAccount
  import opened Protocol
  import opened Runs
  import opened Posting
  import opened HighWaterMark
  import opened FeeTimelock
  import opened SpeedLimit
  import opened FeeLaws
  import opened Invariant
  import opened Payees

  // High-water mark

  /** The mark is the highest of NAV_PRECISION and every NAV ever recorded: it bounds them all and is one of them. */
  lemma MarkIsThePeak(m: Machine)
    requires Reachable(m)
    ensures var mark := m.accounts.vault.highWaterMark;
      NAV_PRECISION <= mark
      && (forall i :: 0 <= i < |m.log| && m.log[i].event.NavPosted? ==> m.log[i].event.navPerShare <= mark)
      && (mark == NAV_PRECISION || exists i :: 0 <= i < |m.log| && m.log[i].event.NavPosted? && m.log[i].event.navPerShare == mark)
  {
    assert Marked(m.accounts.vault, m.log) by { ReachableIsGood(m); }
  }

  /** A performance fee falls due only when gross NAV exceeds NAV_PRECISION and every NAV ever recorded. */
  lemma PerformanceFeeNeedsNewPeak(m: Machine, totalAssets: u64)
    requires Reachable(m) && 0 < PerformanceFeesAt(m.accounts, totalAssets)
    ensures 0 < m.accounts.Supply()
    ensures var gross := NavOf(totalAssets, m.accounts.Supply());
      NAV_PRECISION < gross
      && forall i :: 0 <= i < |m.log| && m.log[i].event.NavPosted? ==> m.log[i].event.navPerShare < gross
  {
    MarkIsThePeak(m);
    EligibleOnlyAboveMark(totalAssets, m.accounts.Supply(), m.accounts.vault.highWaterMark);
  }

  /** After a post, posting the same assets again without flows is never charged a performance fee. */
  lemma {:induction false} RepostingChargesNothing(m: Machine, tx: Tx, txs: seq<Tx>)
    requires tx.ix.IsPost() && Apply(m.accounts, tx.now, tx.ix).Ok?
    requires forall i :: 0 <= i < |txs| ==> NoFlow(txs[i].ix, tx.ix.totalAssets)
    ensures PerformanceFeesOf(Step(m, tx), txs) == 0
  {
    var o := Apply(m.accounts, tx.now, tx.ix).value;
    var bound := tx.ix.BoundOf(m.accounts.config);
    PostRealizesProfit(m.accounts, tx.now, tx.ix.totalAssets, bound, o);
    InstructionIsPosted(m.accounts, tx.now, tx.ix.totalAssets, bound, o);
    RepostingIsFree(Step(m, tx), txs);
  }

  // Timelock

  /** A pending pair asks for more than the live pair in some rate, and is the one last requested. */
  lemma PendingPairIsAnIncrease(m: Machine)
    requires Reachable(m) && m.accounts.vault.feeEffectiveTs != 0
    ensures !PendingRates(m.accounts.vault).AtMost(LiveRates(m.accounts.vault))
    ensures var k := LastFeeUpdate(m.log);
      0 <= k && PendingRates(m.accounts.vault) == m.log[k].event.requested
      && m.accounts.vault.feeEffectiveTs == m.log[k].now + FEE_INCREASE_DELAY
  {
    assert Timelocked(m.accounts.vault, m.log) by { ReachableIsGood(m); }
  }

  /**
   A live rate rises only inside a NAV post, at least the delay after the latest fee update, to exactly
   the pair that update asked for.
   */
  lemma RatesRiseOnlyAfterDelay(m: Machine, tx: Tx)
    requires Reachable(m)
    requires !LiveRates(Step(m, tx).accounts.vault).AtMost(LiveRates(m.accounts.vault))
    ensures tx.ix.IsPost()
    ensures var k := LastFeeUpdate(m.log);
      0 <= k && m.log[k].now + FEE_INCREASE_DELAY <= tx.now
      && LiveRates(Step(m, tx).accounts.vault) == m.log[k].event.requested
  {
    assert Timelocked(m.accounts.vault, m.log) by { ReachableIsGood(m); }
    var o := Apply(m.accounts, tx.now, tx.ix).value;
    RatesAfter(m.accounts, tx.now, tx.ix, o);
    RateRise(m.accounts.vault, o.accounts.vault, m.log, tx.now, o.event);
    if !tx.ix.IsPost() {
      NotAPost(m.accounts, tx.now, tx.ix, o);
    }
  }

  /** No pair is due by `horizon`. */
  predicate NothingDue(v: VaultState, horizon: int) {
    v.feeEffectiveTs == 0 || horizon < v.feeEffectiveTs
  }

  lemma NoticeStep(m: Machine, tx: Tx, horizon: int)
    requires NothingDue(m.accounts.vault, horizon) && tx.now <= horizon < tx.now + FEE_INCREASE_DELAY
    ensures NothingDue(Step(m, tx).accounts.vault, horizon)
    ensures LiveRates(Step(m, tx).accounts.vault).AtMost(LiveRates(m.accounts.vault))
  {
    if Apply(m.accounts, tx.now, tx.ix).Ok? {
      RatesAfter(m.accounts, tx.now, tx.ix, Apply(m.accounts, tx.now, tx.ix).value);
    }
  }

  /** Whatever the manager does, rates with no increase due stay where they are or fall for the whole delay. */
  lemma {:induction false} HoldersHaveNotice(m: Machine, txs: seq<Tx>, horizon: int)
    requires Ordered(m.now, txs) && NothingDue(m.accounts.vault, horizon) && horizon < m.now + FEE_INCREASE_DELAY
    requires forall i :: 0 <= i < |txs| ==> txs[i].now <= horizon
    ensures LiveRates(Run(m, txs).accounts.vault).AtMost(LiveRates(m.accounts.vault))
    decreases |txs|
  {
    if txs != [] {
      NoticeStep(m, txs[0], horizon);
      StepClock(m, txs[0]);
      HoldersHaveNotice(Step(m, txs[0]), txs[1..], horizon);
    }
  }

  // Accruals and claims

  /**
   What each payee has claimed and may still claim is together exactly what the posts accrued to it, and whatever
   the manager claimed went to the vault's authority.
   */
  lemma ClaimsMatchAccruals(m: Machine)
    requires Reachable(m)
    ensures forall i :: 0 <= i < |m.log| && m.log[i].event.FeesClaimed? && m.log[i].event.payee == Manager ==>
                          m.log[i].event.authority == m.accounts.authority
    ensures m.accounts.vault.unclaimedManagerFeeShares + Claimed(m.log, Manager) == Accrued(m.log, Manager)
    ensures m.accounts.vault.unclaimedPlatformFeeShares + Claimed(m.log, Platform) == Accrued(m.log, Platform)
  {
    assert FeesTraced(m.accounts.vault, m.log) && ClaimsNamed(m.accounts, m.log) by { ReachableIsGood(m); }
  }

  // Speed limit

  /** Over posts held to a bound of at most `bps`, NAV moves no faster than the bound compounded per epoch. */
  lemma NavSpeedLimit(m: Machine, i: nat, k: nat, bps: nat)
    requires Reachable(m) && i <= k < |m.log| && bps <= MAX_BPS
    requires m.log[i].event.NavPosted? && m.log[k].event.NavPosted?
    requires forall j :: i < j <= k && m.log[j].event.NavPosted? ==> Limited(m.log[j].event, bps)
    ensures var n := Epoch(m.log[k].now) - Epoch(m.log[i].now);
      var nav, nav' := m.log[i].event.navPerShare, m.log[k].event.navPerShare;
      0 <= n
      && nav * Pow(MAX_BPS - bps, n) <= nav' * Pow(MAX_BPS, n) <= nav * Pow(MAX_BPS + bps, n)
  {
    assert Chained(m.log) by { ReachableIsGood(m); }
    RunWithinSpeed(m.log, i, k, bps);
  }

  lemma {:induction false} PowPositive(base: nat, exponent: nat)
    requires 0 < base
    ensures 0 < Pow(base, exponent)
  {
    if exponent > 0 {
      PowPositive(base, exponent - 1);
      MulMono(1, base, Pow(base, exponent - 1));
    }
  }

  /** A zero NAV stays zero until an override or an empty supply. */
  lemma ZeroNavStaysZero(m: Machine, i: nat, k: nat)
    requires Reachable(m) && i <= k < |m.log|
    requires m.log[i].event.NavPosted? && m.log[k].event.NavPosted? && m.log[i].event.navPerShare == 0
    requires forall j :: i < j <= k && m.log[j].event.NavPosted? ==>
                           0 < m.log[j].event.supply && m.log[j].event.bound.Some?
    ensures m.log[k].event.navPerShare == 0
  {
    forall j | i < j <= k && m.log[j].event.NavPosted? ensures Limited(m.log[j].event, MAX_BPS) {
      assert Chained(m.log) by { ReachableIsGood(m); }
      assert Linked(m.log[..j], m.log[j]);
    }
    NavSpeedLimit(m, i, k, MAX_BPS);
    var n := Epoch(m.log[k].now) - Epoch(m.log[i].now);
    PowPositive(MAX_BPS, n);
    MulMono(1, Pow(MAX_BPS, n), m.log[k].event.navPerShare);
  }

  // Definedness of a post

  const FEE_WINDOW := 0x4_0000_0000_0000 // 2^50 seconds

  /** Capped rates over a window of 2^50 seconds keep every management product within u128. */
  lemma CappedProductFits(totalAssets: u64, bps: nat, elapsed: nat)
    requires bps <= MAX_BPS && elapsed < FEE_WINDOW
    ensures FeeProductFits(totalAssets, bps, elapsed)
  {
    MulMono2(totalAssets, U64_MAX, bps, MAX_BPS);
    MulMono2(totalAssets * bps, U64_MAX * MAX_BPS, elapsed, FEE_WINDOW);
  }

  /** What can stop the fee branch of a post: the fee, the bound, and values outside u64. */
  predicate DilutionRecordable(v: VaultState, bound: Option<u16>, d: Dilution) {
    d.navPerShare <= U64_MAX
    && (bound.Some? ==> WithinDeviation(d.navPerShare, v.navPerShare, bound.value))
    && v.unclaimedManagerFeeShares + d.managerShares <= U64_MAX
    && v.unclaimedPlatformFeeShares + d.platformShares <= U64_MAX
  }

  lemma AccrualDefined(v: VaultState, args: NavUpdateArgs)
    requires 0 < v.VirtualSupply(args.shareSupply)
    requires v.managementFeeBps <= MAX_BPS && args.platformManagementFeeBps <= MAX_BPS
    requires Elapsed(v, args.now) < FEE_WINDOW
    ensures var fees := FeesDue(v, args);
      AccruedFees(v, args).Ok? <==>
      (fees.Total() == 0 || fees.Total() < args.totalAssets)
      && DilutionRecordable(v, args.maxNavDeviationBps, Dilute(args.totalAssets, v.VirtualSupply(args.shareSupply), fees))
  {
    CappedProductFits(args.totalAssets, v.managementFeeBps, Elapsed(v, args.now));
    CappedProductFits(args.totalAssets, args.platformManagementFeeBps, Elapsed(v, args.now));
  }

  /** Every product and sum that a post with shares outstanding computes in 128 bits fits them. */
  predicate IntermediatesFit(v: VaultState, args: NavUpdateArgs)
    requires 0 < v.VirtualSupply(args.shareSupply)
  {
    var supply, assets, elapsed := v.VirtualSupply(args.shareSupply), args.totalAssets, Elapsed(v, args.now);
    var gross, profit, fees := NavOf(assets, supply), EligibleProfit(assets, supply, v.highWaterMark), FeesDue(v, args);
    assets * NAV_PRECISION <= U128_MAX
    && (gross > v.highWaterMark ==> (gross - v.highWaterMark) * supply <= U128_MAX)
    && FeeProductFits(assets, v.managementFeeBps, elapsed)
    && FeeProductFits(assets, args.platformManagementFeeBps, elapsed)
    && profit * v.performanceFeeBps <= U128_MAX && profit * args.platformPerformanceFeeBps <= U128_MAX
    && fees.Total() <= U128_MAX
    && (fees.Total() < assets ==>
          fees.manager * supply <= U128_MAX && fees.platform * supply <= U128_MAX
          && Dilute(assets, supply, fees).supply <= U128_MAX)
    && (args.maxNavDeviationBps.Some? ==> v.navPerShare * args.maxNavDeviationBps.value <= U128_MAX)
  }

  lemma CappedIntermediatesFit(v: VaultState, args: NavUpdateArgs)
    requires 0 < v.VirtualSupply(args.shareSupply) <= U64_MAX
    requires v.managementFeeBps <= MAX_BPS && args.platformManagementFeeBps <= MAX_BPS
    requires Elapsed(v, args.now) < FEE_WINDOW
    ensures IntermediatesFit(v, args)
  {
    var supply, assets, fees := v.VirtualSupply(args.shareSupply), args.totalAssets, FeesDue(v, args);
    CappedProductFits(assets, v.managementFeeBps, Elapsed(v, args.now));
    CappedProductFits(assets, args.platformManagementFeeBps, Elapsed(v, args.now));
    ProfitFits(assets, supply, v.highWaterMark);
    FeesFit(v, args);
    var profit := EligibleProfit(assets, supply, v.highWaterMark);
    PerformanceFeeFits(profit, v.performanceFeeBps);
    PerformanceFeeFits(profit, args.platformPerformanceFeeBps);
    if fees.Total() < assets { DilutionFits(assets, supply, fees); }
    if args.maxNavDeviationBps.Some? { DeviationFits(v.navPerShare, args.maxNavDeviationBps.value); }
  }

  /** An overflow of the fee branch is that of a counter. */
  lemma AccrualOverflows(v: VaultState, args: NavUpdateArgs)
    requires 0 < v.VirtualSupply(args.shareSupply)
    requires v.managementFeeBps <= MAX_BPS && args.platformManagementFeeBps <= MAX_BPS
    requires Elapsed(v, args.now) < FEE_WINDOW
    ensures AccruedFees(v, args) == Err(MathOverflow) ==>
              var fees := FeesDue(v, args);
              (fees.Total() == 0 || fees.Total() < args.totalAssets)
              && CounterOverflows(v, Dilute(args.totalAssets, v.VirtualSupply(args.shareSupply), fees))
  {
    CappedProductFits(args.totalAssets, v.managementFeeBps, Elapsed(v, args.now));
    CappedProductFits(args.totalAssets, args.platformManagementFeeBps, Elapsed(v, args.now));
  }

  predicate CounterOverflows(v: VaultState, d: Dilution) {
    v.unclaimedManagerFeeShares + d.managerShares > U64_MAX || v.unclaimedPlatformFeeShares + d.platformShares > U64_MAX
  }

  /**
   From a reachable state, with less than 2^50 seconds since the last post, nothing that a NAV post computes
   on the way overflows 128 bits. The post succeeds exactly under these conditions, and it reports an
   overflow only if the virtual supply or a fee counter would leave u64.
   */
  lemma PostIsDefined(m: Machine, now: i64, totalAssets: u64, bound: Option<u16>)
    requires Reachable(m) && m.now <= now && now - m.accounts.vault.lastNavTs < FEE_WINDOW
    ensures var a := m.accounts;
      0 < a.Supply() <= U64_MAX ==> IntermediatesFit(a.vault, PostArgs(a, now, totalAssets, bound))
    ensures var a := m.accounts; var args := PostArgs(a, now, totalAssets, bound);
      Post(a, now, totalAssets, bound).Ok? <==>
      !a.closed && a.idle <= totalAssets
      && a.vault.navEpoch < Epoch(now)
      && a.Supply() <= U64_MAX
      && (a.Supply() == 0
          || ((FeesDue(a.vault, args).Total() == 0 || FeesDue(a.vault, args).Total() < totalAssets)
              && DilutionRecordable(a.vault, bound, Dilute(totalAssets, a.Supply(), FeesDue(a.vault, args)))))
    ensures var a := m.accounts; var args := PostArgs(a, now, totalAssets, bound);
      Post(a, now, totalAssets, bound) == Err(MathOverflow) ==>
      a.Supply() > U64_MAX
      || (0 < a.Supply()
          && (FeesDue(a.vault, args).Total() == 0 || FeesDue(a.vault, args).Total() < totalAssets)
          && CounterOverflows(a.vault, Dilute(totalAssets, a.Supply(), FeesDue(a.vault, args))))
  {
    assert RatesCapped(m.accounts) && 0 <= m.accounts.vault.lastNavTs <= m.now by { ReachableIsGood(m); }
    var v, args := m.accounts.vault, PostArgs(m.accounts, now, totalAssets, bound);
    if 0 < m.accounts.Supply() {
      AccrualDefined(v, args);
      AccrualOverflows(v, args);
      if m.accounts.Supply() <= U64_MAX { CappedIntermediatesFit(v, args); }
    }
  }

  // The fees of a post

  /** The supply after a post is that of the dilution by the fees due. */
  lemma PostDilutes(a: Accounts, now: i64, totalAssets: u64, bound: Option<u16>, o: Outcome)
    requires Post(a, now, totalAssets, bound) == Ok(o) && 0 < a.Supply()
    ensures var fees := FeesDue(a.vault, PostArgs(a, now, totalAssets, bound));
      (fees.Total() == 0 || fees.Total() < totalAssets)
      && var d := Dilute(totalAssets, a.Supply(), fees);
         o.event.feeShares == NavFeeShares(d.managerShares, d.platformShares)
         && o.accounts.Supply() == d.supply && o.accounts.vault.navPerShare == d.navPerShare
  {
    var args := PostArgs(a, now, totalAssets, bound);
    var (accrued, feeShares) := AccruedFees(a.vault, args).value;
    DilutionRecorded(a.vault, bound, Dilute(totalAssets, a.Supply(), FeesDue(a.vault, args)), accrued, feeShares);
  }

  /**
   A post takes its fees fairly. With T assets, fees F, supply S before and S' after, the fee shares f are
   worth at most F and short of it by less than two units per net asset, the old shares keep at least
   their part of the net assets, and each payee gets less than its fee times (S'+1)/S'.
   */
  lemma PostIsFair(a: Accounts, now: i64, totalAssets: u64, bound: Option<u16>, o: Outcome)
    requires Post(a, now, totalAssets, bound) == Ok(o) && 0 < a.Supply()
    ensures var fees := FeesDue(a.vault, PostArgs(a, now, totalAssets, bound));
      var fee, supply, supply' := fees.Total(), a.Supply(), o.accounts.Supply();
      if fee == 0 then supply' == supply
      else
        0 <= fee * supply' - (supply' - supply) * totalAssets <= 2 * (totalAssets - fee - 1)
        && (totalAssets - fee) * supply' <= supply * totalAssets
        && (0 < fees.manager ==> o.event.feeShares.managerFeeShares * totalAssets < fees.manager * (supply' + 1))
        && (0 < fees.platform ==> o.event.feeShares.platformFeeShares * totalAssets < fees.platform * (supply' + 1))
  {
    PostDilutes(a, now, totalAssets, bound, o);
    var fees := FeesDue(a.vault, PostArgs(a, now, totalAssets, bound));
    if 0 < fees.Total() {
      DilutionFair(totalAssets, a.Supply(), fees);
      PayeeBounded(totalAssets, a.Supply(), fees);
    }
  }

  /** What the fee shares of a post redeem for is at most the fee, and is the fee exactly if all three quotients are even. */
  lemma PostWorthTheFee(a: Accounts, now: i64, totalAssets: u64, bound: Option<u16>, o: Outcome)
    requires Post(a, now, totalAssets, bound) == Ok(o) && 0 < a.Supply()
    requires 0 < FeesDue(a.vault, PostArgs(a, now, totalAssets, bound)).Total()
    ensures var fees := FeesDue(a.vault, PostArgs(a, now, totalAssets, bound));
      var supply, supply' := a.Supply(), o.accounts.Supply();
      var worth := PayoutFor(supply' - supply, o.accounts.vault.navPerShare);
      fees.Total() < totalAssets && worth <= fees.Total()
      && (worth == fees.Total() <==>
            fees.manager * supply % (totalAssets - fees.Total()) == 0
            && fees.platform * supply % (totalAssets - fees.Total()) == 0
            && totalAssets * NAV_PRECISION % supply' == 0)
  {
    PostDilutes(a, now, totalAssets, bound, o);
    WorthExactlyIfEven(totalAssets, a.Supply(), FeesDue(a.vault, PostArgs(a, now, totalAssets, bound)));
  }
}
