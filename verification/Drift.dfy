/**
 How far the recorded NAV can drift from the assets between posts: one-sided, and by less than one unit
 per settlement.
 */
module Drift {
  import opened Words
  import opened Arithmetic
  import opened Tables
  import opened VaultModel
  import opened Protocol
  import opened Runs
  import opened Frames
  import opened Posting
  import opened Solvency
  import opened Tracing

  /**
   The dust that the log allows: what the latest post left, below one unit per share, then less than
   one unit of rounding per settlement, and the full value of any shares that holders burned.
   */
  function DustAllowance(log: Log): nat {
    if log == [] then 0
    else
      match Last(log).event
      case NavPosted(totalAssets, _, feeShares, supply, _) =>
        if supply == 0 then totalAssets * NAV_PRECISION
        else supply + feeShares.managerFeeShares + feeShares.platformFeeShares - 1
      case DepositResolved(_, _, _, navPerShare) => DustAllowance(Front(log)) + if navPerShare == 0 then 0 else navPerShare - 1
      case WithdrawalResolved(_, _, _, _) => DustAllowance(Front(log)) + NAV_PRECISION - 1
      case SharesBurned(shares) => DustAllowance(Front(log)) + NavInForce(Front(log)) * shares
      case _ => DustAllowance(Front(log))
  }

  predicate DriftBounded(a: Accounts, log: Log) {
    Surplus(a) <= DustAllowance(log)
  }

  lemma DriftAfterPost(a: Accounts, log: Log, now: i64, totalAssets: u64, bound: Option<u16>, o: Outcome)
    requires Post(a, now, totalAssets, bound) == Ok(o)
    ensures DriftBounded(o.accounts, log + [Entry(now, o.event)])
  {
    Appended(log, Entry(now, o.event));
    InstructionIsPosted(a, now, totalAssets, bound, o);
    PostedSurplus(a.vault, o.accounts.vault, totalAssets, a.shareSupply, now, o.event.feeShares);
  }

  lemma DriftAfterDeposit(a: Accounts, log: Log, now: i64, user: Key, o: Outcome)
    requires DriftBounded(a, log) && ResolveDepositRequest(a, user) == Ok(o)
    ensures DriftBounded(o.accounts, log + [Entry(now, o.event)])
  {
    Appended(log, Entry(now, o.event));
    DepositSurplus(a, user, o);
  }

  lemma DriftAfterWithdrawal(a: Accounts, log: Log, now: i64, user: Key, o: Outcome)
    requires DriftBounded(a, log) && ResolveWithdrawalRequest(a, user) == Ok(o)
    ensures DriftBounded(o.accounts, log + [Entry(now, o.event)])
  {
    Appended(log, Entry(now, o.event));
    WithdrawalSurplus(a, user, o);
  }

  lemma DriftAfterBurn(a: Accounts, log: Log, now: i64, from: Key, shares: u64, o: Outcome)
    requires DriftBounded(a, log) && NavPostedLast(a.vault, log) && BurnShares(a, from, shares) == Ok(o)
    ensures DriftBounded(o.accounts, log + [Entry(now, o.event)])
  {
    Appended(log, Entry(now, o.event));
    BurnSurplus(a, from, shares, o);
  }

  lemma DriftUnmoved(a: Accounts, log: Log, now: i64, ix: Instruction, o: Outcome)
    requires !ix.IsPost() && !ix.DepositResolve? && !ix.WithdrawalResolve? && !ix.SharesBurn?
    requires DriftBounded(a, log) && Apply(a, now, ix) == Ok(o)
    ensures DriftBounded(o.accounts, log + [Entry(now, o.event)])
  {
    Appended(log, Entry(now, o.event));
    SurplusUnmoved(a, now, ix, o);
    QuietEvent(a, now, ix, o);
  }

  lemma KeepsDriftBounded(a: Accounts, log: Log, now: i64, ix: Instruction, o: Outcome)
    requires DriftBounded(a, log) && NavPostedLast(a.vault, log) && Apply(a, now, ix) == Ok(o)
    ensures DriftBounded(o.accounts, log + [Entry(now, o.event)])
  {
    if ix.IsPost() {
      PostApplied(a, now, ix, o);
      DriftAfterPost(a, log, now, ix.totalAssets, ix.BoundOf(a.config), o);
    } else {
      match ix
      case DepositResolve(user) => DriftAfterDeposit(a, log, now, user, o);
      case WithdrawalResolve(user) => DriftAfterWithdrawal(a, log, now, user, o);
      case SharesBurn(from, shares) => DriftAfterBurn(a, log, now, from, shares, o);
      case _ => DriftUnmoved(a, log, now, ix, o);
    }
  }

  lemma QuietEvent(a: Accounts, now: i64, ix: Instruction, o: Outcome)
    requires !ix.IsPost() && !ix.DepositResolve? && !ix.WithdrawalResolve? && !ix.SharesBurn? && Apply(a, now, ix) == Ok(o)
    ensures !o.event.NavPosted? && !o.event.DepositResolved? && !o.event.WithdrawalResolved? && !o.event.SharesBurned?
  {
  }

  /** Settlements between two points of the log. */
  function CountFrom(log: Log, from: nat): (counts: (nat, nat))
    requires from <= |log|
  {
    if |log| == from then (0, 0)
    else
      var (deposits, withdrawals) := CountFrom(Front(log), from);
      (deposits + (if Last(log).event.DepositResolved? then 1 else 0),
       withdrawals + (if Last(log).event.WithdrawalResolved? then 1 else 0))
  }

  /**
   After a post at index k left supply S > 0, m deposits and n withdrawals settled at its NAV, without
   burns, allow exactly (S-1) + m*(nav-1) + n*(P-1); at a zero NAV no deposit settles.
   */
  lemma {:induction false} AllowanceFromPost(log: Log, k: nat, nav: u64)
    requires k < |log| && log[k].event.NavPosted? && 0 < log[k].event.supply
    requires forall i :: k < i < |log| ==> !log[i].event.NavPosted? && !log[i].event.SharesBurned?
    requires forall i :: k < i < |log| && log[i].event.DepositResolved? ==> 0 < log[i].event.navPerShare == nav
    ensures var (deposits, withdrawals) := CountFrom(log, k + 1);
      var post := log[k].event;
      (nav == 0 ==> deposits == 0)
      && DustAllowance(log) ==
         post.supply + post.feeShares.managerFeeShares + post.feeShares.platformFeeShares - 1
         + deposits * (nav - 1) + withdrawals * (NAV_PRECISION - 1)
  {
    if |log| - 1 != k {
      AllowanceFromPost(Front(log), k, nav);
      var (deposits, withdrawals) := CountFrom(Front(log), k + 1);
      MulSucc(deposits, nav - 1);
      MulSucc(withdrawals, NAV_PRECISION - 1);
    }
  }
}
