/**
 A run in which fee shares are not worth the fee. A vault that charges 1% a year holds 700 assets in 700
 shares; a year later 1010 assets are posted and 10 are due as a fee, for which 7 shares are accrued. Both
 share quotients are even, but the NAV quotient is not, and the 7 shares redeem for 9.
 */
module FeeRounding {
  import opened Words
  import opened VaultModel
  import opened Protocol
  import opened Runs
  import opened FeeLaws
  import opened Founding

  const A_YEAR_LATER: i64 := EPOCH_1 + SECONDS_PER_YEAR

  function OnePercent(): Genesis {
    Genesis(NewVaultArgs(1000, 1, 1, 0, 100, 0), Config(Normal, 4, 0, 0, 0, 0, 0, 5, 6, 300, 0), 1, 2, 3, map[FOUNDER := 700], 0)
  }

  lemma ChargesTen(v: VaultState, args: NavUpdateArgs)
    requires args.totalAssets == 1010 && args.maxNavDeviationBps == None
    requires args.platformPerformanceFeeBps == 0 && args.platformManagementFeeBps == 0
    requires v.performanceFeeBps == 0 && v.managementFeeBps == 100 && v.VirtualSupply(args.shareSupply) == 700
    requires v.navEpoch == 1 && v.lastNavTs == EPOCH_1 && args.now == A_YEAR_LATER
    ensures OwesTen(v, args)
  {
    ManagementFeeOfAYear(1010, 100);
    ManagementFeeOfAYear(1010, 0);
  }

  /** A year after its founding, the vault owes ten on 1010. */
  lemma TenIsOwed() returns (m: Machine)
    ensures Reachable(m) && m.now == EPOCH_1 && !m.accounts.closed && m.accounts.idle <= 1010 && m.accounts.Supply() == 700
    ensures OwesTen(m.accounts.vault, PostArgs(m.accounts, A_YEAR_LATER, 1010, None))
  {
    m := Founds(OnePercent(), 700);
    ChargesTen(m.accounts.vault, PostArgs(m.accounts, A_YEAR_LATER, 1010, None));
  }

  lemma PostOfTen(a: Accounts) returns (o: Outcome)
    requires !a.closed && a.idle <= 1010 && a.Supply() == 700
    requires OwesTen(a.vault, PostArgs(a, A_YEAR_LATER, 1010, None))
    ensures Post(a, A_YEAR_LATER, 1010, None) == Ok(o) && o.accounts.vault.navPerShare == 1428571428
    ensures o.event == NavPosted(1010, 1428571428, NavFeeShares(7, 0), 700, None)
  {
    FeeNotWorthExactly(a.vault, PostArgs(a, A_YEAR_LATER, 1010, None));
    o := Post(a, A_YEAR_LATER, 1010, None).value;
  }

  /** The comment that fee shares are worth exactly the fee fails in a state that a run reaches. */
  lemma FeeOfTen() returns (m: Machine, m': Machine)
    ensures Reachable(m) && Reachable(m') && m' == Step(m, Tx(A_YEAR_LATER, NavOverride(1010)))
    ensures OwesTen(m.accounts.vault, PostArgs(m.accounts, A_YEAR_LATER, 1010, None))
    ensures m'.log == m.log + [Entry(A_YEAR_LATER, NavPosted(1010, 1428571428, NavFeeShares(7, 0), 700, None))]
    ensures PayoutFor(7, m'.accounts.vault.navPerShare) == 9
  {
    m := TenIsOwed();
    var o := PostOfTen(m.accounts);
    PostSteps(m, A_YEAR_LATER, 1010, o);
    StepStaysReachable(m, Tx(A_YEAR_LATER, NavOverride(1010)));
    m' := Step(m, Tx(A_YEAR_LATER, NavOverride(1010)));
  }
}
