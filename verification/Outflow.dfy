/**
 The outflow counter. Between posts only requests older than the latest post can settle, and that post
 valued them within its total assets, so the counter and everything still to settle fit one word.
 */
module Outflow {
  import opened Words
  import opened Arithmetic
  import opened Tables
  import opened VaultModel
  import opened Requests
  import opened Protocol
  import opened Runs
  import opened Frames
  import opened Posting
  import opened Solvency
  import opened Escrow
  import opened Tracing

  /** What has been paid since the post plus what the matured requests are worth stays within u64. */
  ghost predicate OutflowCovered(a: Accounts) {
    a.vault.epochOutflow * NAV_PRECISION
    + a.vault.navPerShare * Total(Matured(a.withdrawals, a.vault.navEpoch)) <= U64_MAX * NAV_PRECISION
  }

  /** What withdrawals have been paid since the latest post. */
  function PaidSincePost(log: Log): nat {
    if log == [] || Last(log).event.NavPosted? then 0
    else PaidSincePost(Front(log)) + (if Last(log).event.WithdrawalResolved? then Last(log).event.output else 0)
  }

  /** The counter is exactly that. */
  predicate OutflowTraced(v: VaultState, log: Log) {
    v.epochOutflow == PaidSincePost(log)
  }

  lemma PaidIsCounted(a: Accounts, now: i64, ix: Instruction, o: Outcome)
    requires ix.IsRequest() && Apply(a, now, ix) == Ok(o)
    ensures o.accounts.vault.epochOutflow
            == a.vault.epochOutflow + if o.event.WithdrawalResolved? then o.event.output else 0
  {
  }

  lemma OnlyRequestsPay(a: Accounts, now: i64, ix: Instruction, o: Outcome)
    requires !ix.IsRequest() && Apply(a, now, ix) == Ok(o)
    ensures !o.event.WithdrawalResolved?
  {
  }

  lemma KeepsOutflowTraced(a: Accounts, log: Log, now: i64, ix: Instruction, o: Outcome)
    requires OutflowTraced(a.vault, log) && Apply(a, now, ix) == Ok(o)
    ensures OutflowTraced(o.accounts.vault, log + [Entry(now, o.event)])
  {
    Appended(log, Entry(now, o.event));
    if ix.IsRequest() {
      TermsUntouched(a, now, ix, o);
      PaidIsCounted(a, now, ix, o);
    } else {
      OnlyRequestsPay(a, now, ix, o);
      if ix.IsOutside() {
        VaultUntouched(a, now, ix, o);
      } else if ix.IsPost() {
        PostApplied(a, now, ix, o);
        InstructionIsPosted(a, now, ix.totalAssets, ix.BoundOf(a.config), o);
      } else {
        PricesUntouched(a, now, ix, o);
      }
    }
  }

  lemma {:induction false} TotalSubset(s: Table, t: Table)
    requires s.Keys <= t.Keys && forall k :: k in s ==> s[k] <= t[k]
    ensures Total(s) <= Total(t)
    decreases |s|
  {
    if s != map[] {
      var k :| k in s;
      TotalWithout(s, k);
      TotalWithout(t, k);
      TotalSubset(s - {k}, t - {k});
    }
  }

  /** Withdrawals move the matured total only when a matured request leaves. */
  lemma MaturedAfter(before: RequestTable, after: RequestTable, navEpoch: u64, now: i64, e: Event)
    requires Tracks(before, after, now, e, WithdrawalSide)
    requires navEpoch <= Epoch(now)
    ensures Total(Matured(after, navEpoch)) <= Total(Matured(before, navEpoch))
    ensures e.WithdrawalResolved? && before[e.user].Resolvable(navEpoch) ==>
              Total(Matured(after, navEpoch)) == Total(Matured(before, navEpoch)) - e.amount
  {
    var user := UserOf(e);
    if RequestedBy(e, WithdrawalSide, user) {
      assert Matured(after, navEpoch) == Matured(before, navEpoch);
    } else if ClosedFor(e, WithdrawalSide, user) {
      assert Matured(after, navEpoch) == Matured(before, navEpoch) - {user};
      TotalRemove(Matured(before, navEpoch), user);
    }
  }

  /** A payout adds to the counter no more than its shares were worth. */
  lemma PayoutCovered(outflow: nat, matured: nat, shares: nat, nav: nat)
    requires shares <= matured
    ensures (outflow + PayoutFor(shares, nav)) * NAV_PRECISION + nav * (matured - shares)
            <= outflow * NAV_PRECISION + nav * matured
  {
    WithdrawalDust(shares, nav);
    assert nav * (matured - shares) == nav * matured - nav * shares;
  }

  lemma OutflowAfterResolve(a: Accounts, now: i64, ix: Instruction, o: Outcome)
    requires OutflowCovered(a) && a.vault.navEpoch <= Epoch(now)
    requires ix.WithdrawalResolve? && Apply(a, now, ix) == Ok(o)
    ensures OutflowCovered(o.accounts)
  {
    StepTracked(a, now, ix, o);
    MaturedAfter(a.withdrawals, o.accounts.withdrawals, a.vault.navEpoch, now, o.event);
    PayoutCovered(a.vault.epochOutflow, Total(Matured(a.withdrawals, a.vault.navEpoch)), o.event.amount, a.vault.navPerShare);
  }

  lemma OutflowCarries(a: Accounts, b: Accounts)
    requires OutflowCovered(a)
    requires b.vault.epochOutflow == a.vault.epochOutflow && b.vault.navPerShare == a.vault.navPerShare
    requires Total(Matured(b.withdrawals, b.vault.navEpoch)) <= Total(Matured(a.withdrawals, a.vault.navEpoch))
    ensures OutflowCovered(b)
  {
    MulMono(Total(Matured(b.withdrawals, b.vault.navEpoch)), Total(Matured(a.withdrawals, a.vault.navEpoch)), a.vault.navPerShare);
  }

  lemma OutflowAfterRequest(a: Accounts, now: i64, ix: Instruction, o: Outcome)
    requires OutflowCovered(a) && a.vault.navEpoch <= Epoch(now)
    requires ix.IsRequest() && !ix.WithdrawalResolve? && Apply(a, now, ix) == Ok(o)
    ensures OutflowCovered(o.accounts)
  {
    TermsUntouched(a, now, ix, o);
    OutflowUnmoved(a, now, ix, o);
    StepTracked(a, now, ix, o);
    MaturedAfter(a.withdrawals, o.accounts.withdrawals, a.vault.navEpoch, now, o.event);
    OutflowCarries(a, o.accounts);
  }

  lemma OutflowUnmoved(a: Accounts, now: i64, ix: Instruction, o: Outcome)
    requires ix.IsRequest() && !ix.WithdrawalResolve? && Apply(a, now, ix) == Ok(o)
    ensures o.accounts.vault.epochOutflow == a.vault.epochOutflow
  {
  }

  /** What is matured is part of a supply that the assets cover. */
  lemma MaturedWorth(matured: nat, supply: nat, nav: nat, totalAssets: u64)
    requires matured <= supply && nav * supply <= totalAssets * NAV_PRECISION
    ensures nav * matured <= U64_MAX * NAV_PRECISION
  {
    MulMono(matured, supply, nav);
  }

  /** After a post the pending shares, matured or not, are worth no more than the assets posted. */
  lemma OutflowAfterPost(a: Accounts, log: Log)
    requires Solvent(a) && Mirrored(a, log) && a.vault.epochOutflow == 0
    ensures OutflowCovered(a)
  {
    var matured := Matured(a.withdrawals, a.vault.navEpoch);
    TotalSubset(matured, Amounts(a.withdrawals));
    MaturedWorth(Total(matured), a.Supply(), a.vault.navPerShare, a.vault.totalAssets);
  }

  lemma KeepsOutflowCovered(a: Accounts, log: Log, now: i64, ix: Instruction, o: Outcome)
    requires OutflowCovered(a) && a.vault.navEpoch <= Epoch(now) && Apply(a, now, ix) == Ok(o)
    requires Solvent(o.accounts) && Mirrored(o.accounts, log + [Entry(now, o.event)])
    ensures OutflowCovered(o.accounts)
  {
    if ix.WithdrawalResolve? {
      OutflowAfterResolve(a, now, ix, o);
    } else if ix.IsRequest() {
      OutflowAfterRequest(a, now, ix, o);
    } else if ix.IsPost() {
      PostApplied(a, now, ix, o);
      InstructionIsPosted(a, now, ix.totalAssets, ix.BoundOf(a.config), o);
      OutflowAfterPost(o.accounts, log + [Entry(now, o.event)]);
    } else {
      RequestsUntouched(a, now, ix, o);
      if ix.IsOutside() {
        VaultUntouched(a, now, ix, o);
      } else {
        PricesUntouched(a, now, ix, o);
      }
      OutflowCarries(a, o.accounts);
    }
  }
}
