/**
 Who is charged for what, and who gets it. Manager and platform are each charged at their own rates, are each
 paid in their own shares, and claim them into their own wallets; what is claimed and what is still to be
 claimed are together what was ever accrued.
 */
module Payees {
  import opened Words
  import opened Arithmetic
  import opened Tables
  import opened VaultModel
  import opened Protocol
  import opened Runs
  import opened Frames
  import opened Posting

  // What each owes

  /** A post is charged to each payee as if the other's rates were zero. */
  lemma EachAtItsOwnRates(v: VaultState, args: NavUpdateArgs)
    requires 0 < v.VirtualSupply(args.shareSupply)
    ensures FeesDue(v, args).manager
            == FeesDue(v, args.(platformPerformanceFeeBps := 0, platformManagementFeeBps := 0)).Total()
    ensures FeesDue(v, args).platform
            == FeesDue(v.(performanceFeeBps := 0, managementFeeBps := 0), args).Total()
  {
    assert args.totalAssets * 0 * Elapsed(v, args.now) == 0;
  }

  /** A management fee and a performance fee, and the two floors that they lose. */
  lemma FeeWithinFloors(totalAssets: nat, management: nat, elapsed: nat, profit: nat, performance: nat)
    ensures var fee := ManagementFee(totalAssets, management, elapsed) + PerformanceFee(profit, performance);
      var due := totalAssets * management * elapsed + profit * performance * SECONDS_PER_YEAR;
      fee * (SECONDS_PER_YEAR * MAX_BPS) <= due < (fee + 2) * (SECONDS_PER_YEAR * MAX_BPS)
  {
    MulNat(totalAssets, management);
    MulNat(totalAssets * management, elapsed);
    MulNat(profit, performance);
    Floor(totalAssets * management * elapsed, SECONDS_PER_YEAR * MAX_BPS);
    Floor(profit * performance, MAX_BPS);
  }

  /**
   What each payee is charged, in deposit tokens: its management rate on the assets for the time since the last
   post, and its performance rate on the eligible profit, short of less than two units.
   */
  lemma EachIsProportional(v: VaultState, args: NavUpdateArgs)
    requires 0 < v.VirtualSupply(args.shareSupply) && 0 <= v.lastNavTs <= args.now
    ensures var fees, elapsed := FeesDue(v, args), args.now - v.lastNavTs;
      var profit := EligibleProfit(args.totalAssets, v.VirtualSupply(args.shareSupply), v.highWaterMark);
      var manager := args.totalAssets * v.managementFeeBps * elapsed + profit * v.performanceFeeBps * SECONDS_PER_YEAR;
      var platform := args.totalAssets * args.platformManagementFeeBps * elapsed
                      + profit * args.platformPerformanceFeeBps * SECONDS_PER_YEAR;
      fees.manager * (SECONDS_PER_YEAR * MAX_BPS) <= manager < (fees.manager + 2) * (SECONDS_PER_YEAR * MAX_BPS)
      && fees.platform * (SECONDS_PER_YEAR * MAX_BPS) <= platform < (fees.platform + 2) * (SECONDS_PER_YEAR * MAX_BPS)
  {
    var elapsed := args.now - v.lastNavTs;
    var profit := EligibleProfit(args.totalAssets, v.VirtualSupply(args.shareSupply), v.highWaterMark);
    FeeWithinFloors(args.totalAssets, v.managementFeeBps, elapsed, profit, v.performanceFeeBps);
    FeeWithinFloors(args.totalAssets, args.platformManagementFeeBps, elapsed, profit, args.platformPerformanceFeeBps);
  }

  /** The same of a post in a vault: each at the rates of its own account, for the time since the recorded post. */
  lemma PostDuesAreProportional(a: Accounts, now: i64, totalAssets: u64)
    requires 0 < a.Supply() && 0 <= a.vault.lastNavTs <= now
    ensures var v, c, elapsed := a.vault, a.config, now - a.vault.lastNavTs;
      var fees, year := FeesDue(v, PostArgs(a, now, totalAssets, None)), SECONDS_PER_YEAR * MAX_BPS;
      var profit := EligibleProfit(totalAssets, a.Supply(), v.highWaterMark);
      var manager := totalAssets * v.managementFeeBps * elapsed + profit * v.performanceFeeBps * SECONDS_PER_YEAR;
      var platform := totalAssets * c.platformManagementFeeBps * elapsed
                      + profit * c.platformPerformanceFeeBps * SECONDS_PER_YEAR;
      fees.manager * year <= manager < (fees.manager + 2) * year
      && fees.platform * year <= platform < (fees.platform + 2) * year
  {
    EachIsProportional(a.vault, PostArgs(a, now, totalAssets, None));
  }

  // What each is paid

  /** The shares that one of two fees buys. */
  lemma SharesOfFee(totalAssets: nat, supply: nat, fees: Fees)
    requires 0 < supply && 0 < fees.Total() < totalAssets
    ensures var d, net := Dilute(totalAssets, supply, fees), totalAssets - fees.Total();
      d.managerShares * net <= fees.manager * supply < (d.managerShares + 1) * net
      && d.platformShares * net <= fees.platform * supply < (d.platformShares + 1) * net
  {
    var net := totalAssets - fees.Total();
    MulNat(fees.manager, supply);
    MulNat(fees.platform, supply);
    Floor(fees.manager * supply, net);
    Floor(fees.platform * supply, net);
    MulSucc(fees.manager * supply / net, net);
    MulSucc(fees.platform * supply / net, net);
  }

  lemma AccrualRecorded(v: VaultState, args: NavUpdateArgs, post: NavPost)
    requires 0 < v.VirtualSupply(args.shareSupply) && PostNav(v, args) == Ok(post)
    ensures var fees := FeesDue(v, args);
      (fees.Total() == 0 || fees.Total() < args.totalAssets)
      && var d := Dilute(args.totalAssets, v.VirtualSupply(args.shareSupply), fees);
         post.vault.unclaimedManagerFeeShares == v.unclaimedManagerFeeShares + d.managerShares
         && post.vault.unclaimedPlatformFeeShares == v.unclaimedPlatformFeeShares + d.platformShares
  {
    var (accrued, feeShares) := AccruedFees(v, args).value;
    var d := Dilute(args.totalAssets, v.VirtualSupply(args.shareSupply), FeesDue(v, args));
    DilutionRecorded(v, args.maxNavDeviationBps, d, accrued, feeShares);
  }

  /**
   A successful post of T assets on S shares that charges F in all raises each payee's counter by the shares that
   its own fee buys, at S shares for T - F assets.
   */
  lemma PostPaysEach(a: Accounts, now: i64, ix: Instruction, o: Outcome)
    requires ix.IsPost() && Apply(a, now, ix) == Ok(o) && 0 < a.Supply()
    ensures var fees := FeesDue(a.vault, PostArgs(a, now, ix.totalAssets, None));
      var manager := o.accounts.vault.unclaimedManagerFeeShares - a.vault.unclaimedManagerFeeShares;
      var platform := o.accounts.vault.unclaimedPlatformFeeShares - a.vault.unclaimedPlatformFeeShares;
      (fees.Total() == 0 ==> manager == 0 == platform)
      && (0 < fees.Total() ==>
            var net := ix.totalAssets - fees.Total();
            0 < net
            && manager * net <= fees.manager * a.Supply() < (manager + 1) * net
            && platform * net <= fees.platform * a.Supply() < (platform + 1) * net)
  {
    PostApplied(a, now, ix, o);
    var args := PostArgs(a, now, ix.totalAssets, ix.BoundOf(a.config));
    AccrualRecorded(a.vault, args, PostNav(a.vault, args).value);
    if 0 < FeesDue(a.vault, args).Total() { SharesOfFee(ix.totalAssets, a.Supply(), FeesDue(a.vault, args)); }
  }

  lemma NothingOfNothing(fee: nat, supply: nat, shares: int, net: nat)
    requires 0 < net && fee == 0 && shares * net <= fee * supply < (shares + 1) * net
    ensures shares == 0
  {
    if 1 <= shares { MulMono(1, shares, net); }
    if shares <= -1 { MulMono(shares + 1, 0, net); }
  }

  lemma ZeroRatesOweNothing(v: VaultState, args: NavUpdateArgs)
    requires 0 < v.VirtualSupply(args.shareSupply)
    ensures v.performanceFeeBps == 0 == v.managementFeeBps ==> FeesDue(v, args).manager == 0
    ensures args.platformPerformanceFeeBps == 0 == args.platformManagementFeeBps ==> FeesDue(v, args).platform == 0
  {
    assert args.totalAssets * 0 * Elapsed(v, args.now) == 0;
  }

  /** A payee without rates is accrued no shares, whatever the other's rates. */
  lemma NoRatesNoShares(a: Accounts, now: i64, ix: Instruction, o: Outcome)
    requires ix.IsPost() && Apply(a, now, ix) == Ok(o)
    ensures a.vault.performanceFeeBps == 0 == a.vault.managementFeeBps ==>
              o.accounts.vault.unclaimedManagerFeeShares == a.vault.unclaimedManagerFeeShares
    ensures a.config.platformPerformanceFeeBps == 0 == a.config.platformManagementFeeBps ==>
              o.accounts.vault.unclaimedPlatformFeeShares == a.vault.unclaimedPlatformFeeShares
  {
    PostApplied(a, now, ix, o);
    InstructionIsPosted(a, now, ix.totalAssets, ix.BoundOf(a.config), o);
    if 0 < a.Supply() {
      var args := PostArgs(a, now, ix.totalAssets, ix.BoundOf(a.config));
      PostPaysEach(a, now, ix, o);
      ZeroRatesOweNothing(a.vault, args);
      SharesOfZero(FeesDue(a.vault, args), a.Supply(), ix.totalAssets - FeesDue(a.vault, args).Total(),
                   o.accounts.vault.unclaimedManagerFeeShares - a.vault.unclaimedManagerFeeShares,
                   o.accounts.vault.unclaimedPlatformFeeShares - a.vault.unclaimedPlatformFeeShares);
    }
  }

  lemma SharesOfZero(fees: Fees, supply: nat, net: int, manager: int, platform: int)
    requires fees.Total() == 0 ==> manager == 0 == platform
    requires 0 < fees.Total() ==>
               0 < net && manager * net <= fees.manager * supply < (manager + 1) * net
               && platform * net <= fees.platform * supply < (platform + 1) * net
    ensures fees.manager == 0 ==> manager == 0
    ensures fees.platform == 0 ==> platform == 0
  {
    if 0 < fees.Total() {
      if fees.manager == 0 { NothingOfNothing(fees.manager, supply, manager, net); }
      if fees.platform == 0 { NothingOfNothing(fees.platform, supply, platform, net); }
    }
  }

  // What each claims

  /** The manager's claim goes to the vault's authority, and touches nothing of anyone else's. */
  lemma ManagerIsPaid(a: Accounts, now: i64, o: Outcome)
    requires Apply(a, now, ClaimManager) == Ok(o)
    ensures var claimed := a.vault.unclaimedManagerFeeShares;
      0 < claimed
      && Balance(o.accounts.shares, a.authority) == Balance(a.shares, a.authority) + claimed
      && (forall k :: k != a.authority ==> Balance(o.accounts.shares, k) == Balance(a.shares, k))
      && o.accounts == a.(vault := a.vault.(unclaimedManagerFeeShares := 0), shares := o.accounts.shares,
                          shareSupply := a.shareSupply + claimed)
      && o.event == FeesClaimed(Manager, a.authority, claimed)
  {
  }

  /** The platform's claim goes to the treasury's authority. */
  lemma PlatformIsPaid(a: Accounts, now: i64, o: Outcome)
    requires Apply(a, now, ClaimPlatform) == Ok(o)
    ensures var claimed, treasury := a.vault.unclaimedPlatformFeeShares, a.config.treasuryAuthority;
      0 < claimed
      && Balance(o.accounts.shares, treasury) == Balance(a.shares, treasury) + claimed
      && (forall k :: k != treasury ==> Balance(o.accounts.shares, k) == Balance(a.shares, k))
      && o.accounts == a.(vault := a.vault.(unclaimedPlatformFeeShares := 0), shares := o.accounts.shares,
                          shareSupply := a.shareSupply + claimed)
      && o.event == FeesClaimed(Platform, treasury, claimed)
  {
  }

  // Over runs

  /** The fee shares that the posts of a log accrued to `payee`. */
  function Accrued(log: Log, payee: Payee): nat {
    if log == [] then 0 else
      Accrued(Front(log), payee)
      + match Last(log).event
        case NavPosted(_, _, feeShares, _, _) =>
          (match payee case Manager => feeShares.managerFeeShares case Platform => feeShares.platformFeeShares)
        case _ => 0
  }

  /** The fee shares that `payee` claimed. */
  function Claimed(log: Log, payee: Payee): nat {
    if log == [] then 0 else
      Claimed(Front(log), payee)
      + match Last(log).event
        case FeesClaimed(claimant, _, shares) => if claimant == payee then shares else 0
        case _ => 0
  }

  /** Each counter is what was accrued and not claimed. */
  predicate FeesTraced(v: VaultState, log: Log) {
    v.unclaimedManagerFeeShares + Claimed(log, Manager) == Accrued(log, Manager)
    && v.unclaimedPlatformFeeShares + Claimed(log, Platform) == Accrued(log, Platform)
  }

  lemma CountersUntouched(a: Accounts, now: i64, ix: Instruction, o: Outcome)
    requires !ix.IsRequest() && !ix.IsOutside() && !ix.IsPost() && !ix.ClaimManager? && !ix.ClaimPlatform?
    requires Apply(a, now, ix) == Ok(o)
    ensures o.accounts.vault.unclaimedManagerFeeShares == a.vault.unclaimedManagerFeeShares
    ensures o.accounts.vault.unclaimedPlatformFeeShares == a.vault.unclaimedPlatformFeeShares
  {
  }

  lemma OnlyClaimsClaim(a: Accounts, now: i64, ix: Instruction, o: Outcome)
    requires !ix.ClaimManager? && !ix.ClaimPlatform? && Apply(a, now, ix) == Ok(o)
    ensures !o.event.FeesClaimed?
  {
  }

  lemma KeepsFeesTraced(a: Accounts, log: Log, now: i64, ix: Instruction, o: Outcome)
    requires FeesTraced(a.vault, log) && Apply(a, now, ix) == Ok(o)
    ensures FeesTraced(o.accounts.vault, log + [Entry(now, o.event)])
  {
    Appended(log, Entry(now, o.event));
    if ix.ClaimManager? {
      ManagerIsPaid(a, now, o);
    } else if ix.ClaimPlatform? {
      PlatformIsPaid(a, now, o);
    } else {
      OnlyClaimsClaim(a, now, ix, o);
      if ix.IsRequest() {
        TermsUntouched(a, now, ix, o);
      } else if ix.IsOutside() {
        VaultUntouched(a, now, ix, o);
      } else if ix.IsPost() {
        PostApplied(a, now, ix, o);
        InstructionIsPosted(a, now, ix.totalAssets, ix.BoundOf(a.config), o);
      } else {
        CountersUntouched(a, now, ix, o);
        PricesUntouched(a, now, ix, o);
      }
    }
  }

  /** Every claim for the manager went to the vault's authority. */
  predicate ClaimsNamed(a: Accounts, log: Log) {
    forall i :: 0 <= i < |log| && log[i].event.FeesClaimed? && log[i].event.payee == Manager ==>
                  log[i].event.authority == a.authority
  }

  lemma AuthorityStays(a: Accounts, now: i64, ix: Instruction, o: Outcome)
    requires Apply(a, now, ix) == Ok(o)
    ensures o.accounts.authority == a.authority
  {
  }

  lemma KeepsClaimsNamed(a: Accounts, log: Log, now: i64, ix: Instruction, o: Outcome)
    requires ClaimsNamed(a, log) && Apply(a, now, ix) == Ok(o)
    ensures ClaimsNamed(o.accounts, log + [Entry(now, o.event)])
  {
    AuthorityStays(a, now, ix, o);
    if ix.ClaimManager? {
      ManagerIsPaid(a, now, o);
    } else if ix.ClaimPlatform? {
      PlatformIsPaid(a, now, o);
    } else {
      OnlyClaimsClaim(a, now, ix, o);
    }
  }
}
