/**
 Solvency: at the NAV in force, the recorded assets cover every share in existence, the unclaimed
 fee shares included. The surplus is the rounding dust, and settlements only ever add to it.
 */
module Solvency {
  import opened Words
  import opened Arithmetic
  import opened Tables
  import opened VaultModel
  import opened Protocol
  import opened Posting
  import opened Frames

  /** `total_assets * P - nav * supply`, the assets not owed to any share (scaled by NAV_PRECISION). */
  function Surplus(a: Accounts): int {
    a.vault.totalAssets * NAV_PRECISION - a.vault.navPerShare * a.Supply()
  }

  predicate Solvent(a: Accounts) {
    0 <= Surplus(a)
  }

  /** A settlement at `nav` moves the surplus up by its own rounding, which is less than one unit. */
  lemma DepositDust(amount: nat, nav: nat)
    requires 0 < nav
    ensures 0 <= amount * NAV_PRECISION - nav * SharesFor(amount, nav) <= nav - 1
  {
    Floor(amount * NAV_PRECISION, nav);
  }

  lemma WithdrawalDust(shares: nat, nav: nat)
    ensures 0 <= shares * nav - PayoutFor(shares, nav) * NAV_PRECISION <= NAV_PRECISION - 1
    ensures 0 <= PayoutFor(shares, nav)
  {
    MulNat(shares, nav);
    Floor(shares * nav, NAV_PRECISION);
  }

  /** Depositing and withdrawing again at one NAV never profits, and loses less than one share's price and one unit. */
  lemma RoundTripNeverProfits(amount: nat, nav: nat)
    requires 0 < nav
    ensures var back := PayoutFor(SharesFor(amount, nav), nav);
      back <= amount && amount * NAV_PRECISION < (back + 1) * NAV_PRECISION + nav
  {
    DepositDust(amount, nav);
    WithdrawalDust(SharesFor(amount, nav), nav);
  }

  /** Nor does withdrawing and depositing again. */
  lemma ReverseTripNeverProfits(shares: nat, nav: nat)
    requires 0 < nav
    ensures SharesFor(PayoutFor(shares, nav), nav) <= shares
  {
    WithdrawalDust(shares, nav);
    DepositDust(PayoutFor(shares, nav), nav);
    var back := SharesFor(PayoutFor(shares, nav), nav);
    if shares < back { MulMono(shares + 1, back, nav); }
  }

  /** Merging two deposits into one request never costs shares, and gains at most one. */
  lemma MergingNeverCosts(first: nat, second: nat, nav: nat)
    requires 0 < nav
    ensures var apart := SharesFor(first, nav) + SharesFor(second, nav);
      apart <= SharesFor(first + second, nav) <= apart + 1
  {
    Floor(first * NAV_PRECISION, nav);
    Floor(second * NAV_PRECISION, nav);
    SumOfFloors(first * NAV_PRECISION, second * NAV_PRECISION, nav);
    assert (first + second) * NAV_PRECISION == first * NAV_PRECISION + second * NAV_PRECISION;
  }

  lemma SumOfFloors(a: nat, b: nat, c: nat)
    requires 0 < c
    ensures a / c + b / c <= (a + b) / c <= a / c + b / c + 1
  {
    Floor(a, c);
    Floor(b, c);
    if a + b < (a / c + b / c) * c + c {
      FloorIs(a + b, c, a / c + b / c);
    } else {
      FloorIs(a + b, c, a / c + b / c + 1);
    }
  }

  /** A NAV post leaves less than one unit of surplus per share. */
  lemma PostDust(totalAssets: nat, supply: nat)
    requires 0 < supply
    ensures 0 <= totalAssets * NAV_PRECISION - NavOf(totalAssets, supply) * supply <= supply - 1
    ensures 0 <= NavOf(totalAssets, supply)
  {
    Floor(totalAssets * NAV_PRECISION, supply);
  }

  lemma PostedSurplus(v: VaultState, v': VaultState, totalAssets: nat, shareSupply: nat, now: i64, feeShares: NavFeeShares)
    requires Posted(v, v', totalAssets, shareSupply, now, feeShares)
    ensures 0 <= totalAssets * NAV_PRECISION - v'.navPerShare * v'.VirtualSupply(shareSupply)
    ensures 0 < v.VirtualSupply(shareSupply) ==>
              totalAssets * NAV_PRECISION - v'.navPerShare * v'.VirtualSupply(shareSupply) <= v'.VirtualSupply(shareSupply) - 1
    ensures v.VirtualSupply(shareSupply) == 0 ==> v'.VirtualSupply(shareSupply) == 0
  {
    if 0 < v.VirtualSupply(shareSupply) {
      PostDust(totalAssets, v'.VirtualSupply(shareSupply));
    }
  }

  lemma PostSurplus(a: Accounts, now: i64, totalAssets: u64, bound: Option<u16>, o: Outcome)
    requires Post(a, now, totalAssets, bound) == Ok(o)
    ensures Solvent(o.accounts)
    ensures 0 < a.Supply() ==> Surplus(o.accounts) <= o.accounts.Supply() - 1
  {
    InstructionIsPosted(a, now, totalAssets, bound, o);
    PostedSurplus(a.vault, o.accounts.vault, totalAssets, a.shareSupply, now, o.event.feeShares);
  }

  lemma DepositSurplus(a: Accounts, user: Key, o: Outcome)
    requires ResolveDepositRequest(a, user) == Ok(o)
    ensures 0 < a.vault.navPerShare
    ensures Surplus(a) <= Surplus(o.accounts) <= Surplus(a) + a.vault.navPerShare - 1
  {
    var amount, nav := a.deposits[user].amount, a.vault.navPerShare;
    DepositDust(amount, nav);
    var minted := SharesFor(amount, nav);
    assert nav * (a.Supply() + minted) == nav * a.Supply() + nav * minted;
  }

  lemma WithdrawalSurplus(a: Accounts, user: Key, o: Outcome)
    requires ResolveWithdrawalRequest(a, user) == Ok(o)
    ensures Surplus(a) <= Surplus(o.accounts) <= Surplus(a) + NAV_PRECISION - 1
  {
    var shares, nav := a.withdrawals[user].amount, a.vault.navPerShare;
    WithdrawalDust(shares, nav);
    assert nav * (a.Supply() - shares) == nav * a.Supply() - nav * shares;
  }

  lemma BurnSurplus(a: Accounts, from: Key, shares: u64, o: Outcome)
    requires BurnShares(a, from, shares) == Ok(o)
    ensures Surplus(o.accounts) == Surplus(a) + a.vault.navPerShare * shares
    ensures 0 <= a.vault.navPerShare * shares
  {
    MulNat(a.vault.navPerShare, shares);
    assert a.vault.navPerShare * (a.Supply() - shares) == a.vault.navPerShare * a.Supply() - a.vault.navPerShare * shares;
  }

  /** Every other instruction, fee claims included, leaves the surplus exactly where it was. */
  lemma SurplusUnmoved(a: Accounts, now: i64, ix: Instruction, o: Outcome)
    requires !ix.IsPost() && !ix.DepositResolve? && !ix.WithdrawalResolve? && !ix.SharesBurn? && Apply(a, now, ix) == Ok(o)
    ensures Surplus(o.accounts) == Surplus(a)
    ensures o.accounts.Supply() == a.Supply() && o.accounts.vault.navPerShare == a.vault.navPerShare
  {
    if ix.IsRequest() {
      ReturnsAreUnpriced(a, now, ix, o);
    } else if !ix.IsOutside() {
      PricesUntouched(a, now, ix, o);
    }
  }

  lemma ReturnsAreUnpriced(a: Accounts, now: i64, ix: Instruction, o: Outcome)
    requires ix.IsRequest() && !ix.DepositResolve? && !ix.WithdrawalResolve? && Apply(a, now, ix) == Ok(o)
    ensures o.accounts.vault.totalAssets == a.vault.totalAssets && o.accounts.vault.navPerShare == a.vault.navPerShare
    ensures o.accounts.Supply() == a.Supply()
  {
  }

  /** Between NAV posts the surplus never shrinks. */
  lemma SurplusGrows(a: Accounts, now: i64, ix: Instruction, o: Outcome)
    requires Apply(a, now, ix) == Ok(o) && !ix.IsPost()
    ensures Surplus(a) <= Surplus(o.accounts)
  {
    match ix
    case DepositResolve(user) => DepositSurplus(a, user, o);
    case WithdrawalResolve(user) => WithdrawalSurplus(a, user, o);
    case SharesBurn(from, shares) => BurnSurplus(a, from, shares, o);
    case _ => SurplusUnmoved(a, now, ix, o);
  }

  lemma KeepsSolvent(a: Accounts, now: i64, ix: Instruction, o: Outcome)
    requires Solvent(a) && Apply(a, now, ix) == Ok(o)
    ensures Solvent(o.accounts)
  {
    if ix.IsPost() {
      PostApplied(a, now, ix, o);
      PostSurplus(a, now, ix.totalAssets, ix.BoundOf(a.config), o);
    } else {
      SurplusGrows(a, now, ix, o);
    }
  }
}
