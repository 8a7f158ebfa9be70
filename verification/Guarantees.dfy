/**
 What the program guarantees in every reachable state, to every user and at every next transaction:
 solvency and bounded drift, forward pricing and exact refunds, exhaustive and exclusive exits, and a
 closing that strands nobody.
 */
module Guarantees {
  import opened Words
  import opened Arithmetic
  import opened Tables
  import opened VaultModel
  import opened Requests
  import opened Protocol
  import opened Runs
  import opened Frames
  import opened Posting
  import opened Solvency
  import opened Escrow
  import opened Tracing
  import opened ForwardPricing
  import opened Closing
  import opened Outflow
  import opened SpeedLimit
  import opened Drift
  import opened Invariant

  // Solvency

  /** Any shares in existence are covered by the recorded assets at the NAV in force. */
  lemma SharesAreCovered(a: Accounts, shares: nat)
    requires Solvent(a) && shares <= a.Supply()
    ensures 0 <= PayoutFor(shares, a.vault.navPerShare) <= a.vault.totalAssets
  {
    WithdrawalDust(shares, a.vault.navPerShare);
    MulMono(shares, a.Supply(), a.vault.navPerShare);
    assert PayoutFor(shares, a.vault.navPerShare) * NAV_PRECISION <= a.vault.totalAssets * NAV_PRECISION;
  }

  lemma AlwaysSolvent(m: Machine, shares: nat)
    requires Reachable(m) && shares <= m.accounts.Supply()
    ensures m.accounts.vault.navPerShare * m.accounts.Supply() <= m.accounts.vault.totalAssets * NAV_PRECISION
    ensures PayoutFor(shares, m.accounts.vault.navPerShare) <= m.accounts.vault.totalAssets
  {
    ReachableIsGood(m);
    SharesAreCovered(m.accounts, shares);
  }

  /** The latest post of a prefix that goes past it without another post. */
  lemma LastPostOfPrefix(log: Log, k: nat, i: nat)
    requires k < i <= |log| && log[k].event.NavPosted?
    requires forall j :: k < j < |log| ==> !log[j].event.NavPosted?
    ensures LastPost(log[..i]) == k
  {
    assert log[..i][k] == log[k];
    var p := LastPost(log[..i]);
    assert log[..i][p] == log[p];
  }

  /**
   The surplus since the latest post, which left S > 0 shares: never negative, and without burns at most
   (S-1) + m*(nav-1) + n*(P-1) after m deposit and n withdrawal settlements.
   */
  lemma DriftIsBounded(m: Machine)
    requires Reachable(m)
    requires var k := LastPost(m.log); 0 <= k && 0 < m.log[k].event.supply
                                       && forall i :: k < i < |m.log| ==> !m.log[i].event.SharesBurned?
    ensures var k := LastPost(m.log);
      var nav, post := m.accounts.vault.navPerShare, m.log[k].event;
      var (deposits, withdrawals) := CountFrom(m.log, k + 1);
      0 <= m.accounts.vault.totalAssets * NAV_PRECISION - nav * m.accounts.Supply()
      <= (post.supply + post.feeShares.managerFeeShares + post.feeShares.platformFeeShares - 1)
         + deposits * (nav - 1) + withdrawals * (NAV_PRECISION - 1)
  {
    assert AllFairlyClosed(m.log) && NavPostedLast(m.accounts.vault, m.log)
           && Solvent(m.accounts) && DriftBounded(m.accounts, m.log) by { ReachableIsGood(m); }
    var k := LastPost(m.log);
    SettlementsAtPost(m.log, k);
    AllowanceFromPost(m.log, k, m.accounts.vault.navPerShare);
  }

  /** After the latest post every deposit settles at its NAV. */
  lemma {:induction false} SettlementsAtPost(log: Log, k: nat)
    requires AllFairlyClosed(log) && k == LastPost(log)
    ensures forall i :: k < i < |log| && log[i].event.DepositResolved? ==>
                          0 < log[i].event.navPerShare == log[k].event.navPerShare
  {
    forall i | k < i < |log| && log[i].event.DepositResolved?
      ensures 0 < log[i].event.navPerShare == log[k].event.navPerShare
    {
      assert FairlyClosed(log[..i], log[i].event);
      LastPostOfPrefix(log, k, i);
    }
  }

  // Forward pricing

  /**
   Whenever a request resolved, the NAV it got was written by a post strictly later than every
   contribution merged into the request, and the request was worth exactly what was put in.
   */
  lemma RequestsArePricedForward(m: Machine, i: nat)
    requires Reachable(m) && i < |m.log|
    ensures match m.log[i].event
      case DepositResolved(user, amount, minted, nav) =>
        SettledAt(m.log[..i], DepositSide, user, amount, nav) && 0 < nav && minted == SharesFor(amount, nav)
      case WithdrawalResolved(user, shares, paid, nav) =>
        SettledAt(m.log[..i], WithdrawalSide, user, shares, nav) && paid == PayoutFor(shares, nav)
      case _ => true
  {
    ReachableIsGood(m);
    assert FairlyClosed(m.log[..i], m.log[i].event);
  }

  /**
   When a settlement got the first NAV of a later epoch than its request: exactly if no other post of a
   later epoch came between the last contribution and the post in force, and exactly if the post before the
   one in force was not of a later epoch.
   */
  lemma {:induction false} WhenSettledAtFirstPost(m: Machine, i: nat, side: Side, user: Key)
    requires Reachable(m) && i < |m.log| && ResolvedFor(m.log[i].event, side, user)
    ensures var before := m.log[..i];
      var k, j := LastPost(before), LastContribution(before, side, user);
      0 <= j < k && LaterPost(before, k, Epoch(before[j].now))
      && (FirstLaterPost(before, k, Epoch(before[j].now)) <==>
            forall p :: j < p < k ==> !LaterPost(before, p, Epoch(before[j].now)))
      && (FirstLaterPost(before, k, Epoch(before[j].now)) <==>
            !LaterPost(before, LastPost(before[..k]), Epoch(before[j].now)))
  {
    assert AllFairlyClosed(m.log) && InClockOrder(m.log, m.now) by { ReachableIsGood(m); }
    FirstnessInLog(m.log, m.now, i, side, user);
  }

  /** What whoever settles can check: a request of the epoch just before the NAV in force gets the first later NAV. */
  lemma {:induction false} NextEpochIsFirst(m: Machine, side: Side, user: Key)
    requires Reachable(m)
    requires var requests := if side == DepositSide then m.accounts.deposits else m.accounts.withdrawals;
      user in requests && requests[user].Resolvable(m.accounts.vault.navEpoch)
    ensures var requests := if side == DepositSide then m.accounts.deposits else m.accounts.withdrawals;
      var epoch, k := requests[user].epoch, LastPost(m.log);
      LaterPost(m.log, k, epoch)
      && (FirstLaterPost(m.log, k, epoch) <==> !LaterPost(m.log, LastPost(m.log[..k]), epoch))
      && (m.accounts.vault.navEpoch == epoch + 1 ==> FirstLaterPost(m.log, k, epoch))
  {
    assert Chained(m.log) && Clocked(m) by { ReachableIsGood(m); }
    var requests := if side == DepositSide then m.accounts.deposits else m.accounts.withdrawals;
    var epoch, k := requests[user].epoch, LastPost(m.log);
    FirstIfPreviousNotLater(m.log, m.now, epoch);
    assert Linked(m.log[..k], m.log[k]);
    var q := LastPost(m.log[..k]);
    assert 0 <= q ==> m.log[..k][q] == m.log[q];
  }

  /** NAV per share changes only inside a post. */
  lemma OnlyPostsMoveNav(a: Accounts, now: i64, ix: Instruction, o: Outcome)
    requires Apply(a, now, ix) == Ok(o) && o.accounts.vault.navPerShare != a.vault.navPerShare
    ensures ix.IsPost()
  {
    if ix.IsRequest() {
      TermsUntouched(a, now, ix, o);
    } else if ix.IsOutside() {
      VaultUntouched(a, now, ix, o);
    } else if !ix.IsPost() {
      PricesUntouched(a, now, ix, o);
    }
  }

  // Escrow

  /** The escrows hold the live requests exactly if nobody donated, and never less. */
  lemma EscrowsMirrorRequests(m: Machine)
    requires Reachable(m)
    ensures var a := m.accounts;
      a.vault.pendingDeposits == Total(Amounts(a.deposits))
      && a.depositEscrow == Total(Amounts(a.deposits)) + DonatedTokens(m.log)
      && (a.depositEscrow == a.vault.pendingDeposits <==> DonatedTokens(m.log) == 0)
    ensures var a := m.accounts;
      a.vault.pendingWithdrawalShares == Total(Amounts(a.withdrawals))
      && a.shareEscrow == Total(Amounts(a.withdrawals)) + DonatedShares(m.log)
      && (a.shareEscrow == a.vault.pendingWithdrawalShares <==> DonatedShares(m.log) == 0)
    ensures m.accounts.shareSupply == Total(m.accounts.shares) + m.accounts.shareEscrow
  {
    ReachableIsGood(m);
  }

  /** The documented equality of escrow and pending total fails after a donation. */
  lemma DonationBreaksEquality(m: Machine, g: Genesis, user: Key) returns (m': Machine)
    requires g.Valid() && m == g.Start() && 5 <= Balance(g.tokens, user)
    ensures Reachable(m') && m'.accounts.depositEscrow == 5 && m'.accounts.vault.pendingDeposits == 0
  {
    assert Run(m, []) == m;
    assert ReachedBy(m, g, []);
    m' := Step(m, Tx(m.now, TokensDonate(user, 5)));
    StepStaysReachable(m, Tx(m.now, TokensDonate(user, 5)));
  }

  /** What stands behind a live request. */
  lemma {:induction false} RequestIsHeld(m: Machine, user: Key)
    requires Reachable(m)
    ensures var a := m.accounts;
      user in a.deposits ==>
        !a.closed && 0 < a.deposits[user].amount == Contributed(m.log, DepositSide, user)
        && a.deposits[user].amount <= a.vault.pendingDeposits && a.deposits[user].amount <= a.depositEscrow
    ensures var a := m.accounts;
      user in a.withdrawals ==>
        !a.closed && 0 < a.withdrawals[user].amount == Contributed(m.log, WithdrawalSide, user)
        && a.withdrawals[user].amount <= a.vault.pendingWithdrawalShares && a.withdrawals[user].amount <= a.shareEscrow
        && a.withdrawals[user].amount <= a.shareSupply
  {
    ReachableIsGood(m);
    assert TracedFor(m.accounts.deposits, m.log, DepositSide, user);
    assert TracedFor(m.accounts.withdrawals, m.log, WithdrawalSide, user);
    if user in m.accounts.deposits { RemoveAmount(m.accounts.deposits, user); }
    if user in m.accounts.withdrawals { RemoveAmount(m.accounts.withdrawals, user); }
  }

  /** Rejecting a deposit returns exactly what the user put in since the request opened, and never fails. */
  lemma {:induction false} RejectReturnsTokens(m: Machine, now: i64, user: Key)
    requires Reachable(m) && user in m.accounts.deposits
    ensures var refund := Contributed(m.log, DepositSide, user);
      var r := Apply(m.accounts, now, DepositReject(user));
      r.Ok? && 0 < refund <= m.accounts.depositEscrow
      && r.value.accounts.tokens == Credit(m.accounts.tokens, user, refund)
      && r.value.accounts.deposits == m.accounts.deposits - {user}
  {
    RequestIsHeld(m, user);
  }

  lemma {:induction false} RejectReturnsShares(m: Machine, now: i64, user: Key)
    requires Reachable(m) && user in m.accounts.withdrawals
    ensures var refund := Contributed(m.log, WithdrawalSide, user);
      var r := Apply(m.accounts, now, WithdrawalReject(user));
      r.Ok? && 0 < refund <= m.accounts.shareEscrow
      && r.value.accounts.shares == Credit(m.accounts.shares, user, refund)
      && r.value.accounts.withdrawals == m.accounts.withdrawals - {user}
  {
    RequestIsHeld(m, user);
    RejectionWorks(m.accounts, user);
  }

  lemma RejectionWorks(a: Accounts, user: Key)
    requires !a.closed && user in a.withdrawals
    requires a.withdrawals[user].amount <= a.vault.pendingWithdrawalShares && a.withdrawals[user].amount <= a.shareEscrow
    ensures var r := RejectWithdrawalRequest(a, user);
      r.Ok? && r.value.accounts.shares == Credit(a.shares, user, a.withdrawals[user].amount)
      && r.value.accounts.withdrawals == a.withdrawals - {user}
  {
  }

  /** So does cancelling, as long as the request may still be cancelled. */
  lemma {:induction false} CancelReturnsTokens(m: Machine, now: i64, user: Key)
    requires Reachable(m) && user in m.accounts.deposits
    requires !(m.accounts.deposits[user].Resolvable(m.accounts.vault.navEpoch) && 0 < m.accounts.vault.navPerShare)
    ensures var refund := Contributed(m.log, DepositSide, user);
      var r := Apply(m.accounts, now, DepositCancel(user));
      r.Ok? && 0 < refund <= m.accounts.depositEscrow
      && r.value.accounts.tokens == Credit(m.accounts.tokens, user, refund)
      && r.value.accounts.deposits == m.accounts.deposits - {user}
  {
    RequestIsHeld(m, user);
  }

  lemma {:induction false} CancelReturnsShares(m: Machine, now: i64, user: Key)
    requires Reachable(m) && user in m.accounts.withdrawals
    requires !m.accounts.withdrawals[user].Resolvable(m.accounts.vault.navEpoch)
    ensures var refund := Contributed(m.log, WithdrawalSide, user);
      var r := Apply(m.accounts, now, WithdrawalCancel(user));
      r.Ok? && 0 < refund <= m.accounts.shareEscrow
      && r.value.accounts.shares == Credit(m.accounts.shares, user, refund)
      && r.value.accounts.withdrawals == m.accounts.withdrawals - {user}
  {
    RequestIsHeld(m, user);
    CancellationWorks(m.accounts, user);
  }

  lemma CancellationWorks(a: Accounts, user: Key)
    requires !a.closed && user in a.withdrawals && !a.withdrawals[user].Resolvable(a.vault.navEpoch)
    requires a.withdrawals[user].amount <= a.vault.pendingWithdrawalShares && a.withdrawals[user].amount <= a.shareEscrow
    ensures var r := CancelWithdrawalRequest(a, user);
      r.Ok? && r.value.accounts.shares == Credit(a.shares, user, a.withdrawals[user].amount)
      && r.value.accounts.withdrawals == a.withdrawals - {user}
  {
  }

  // The gates

  /** Deposits are taken and settled while protocol and vault are normal and deposits are not paused. */
  predicate DepositGate(a: Accounts) {
    !a.closed && a.config.status == Normal && a.vault.status == Normal && !a.vault.depositPaused
  }

  /** Withdrawals go on while protocol or vault only reduces. */
  predicate WithdrawalGate(a: Accounts) {
    !a.closed && a.config.status != Paused && a.vault.status != Paused && !a.vault.withdrawalPaused
  }

  /** The outflow of an epoch is what withdrawals have been paid since the latest post. */
  lemma OutflowIsWhatWasPaid(m: Machine)
    requires Reachable(m)
    ensures m.accounts.vault.epochOutflow == PaidSincePost(m.log)
  {
    assert OutflowTraced(m.accounts.vault, m.log) by { ReachableIsGood(m); }
  }

  // Entries

  /** A request that is missing, or still of the current epoch, can be added to. */
  predicate CanAdd(requests: RequestTable, user: Key, now: i64) {
    user in requests ==> requests[user].epoch == Epoch(now)
  }

  /**
   Exactly when a deposit request is accepted. In particular the deposit cap counts what is pending, and no
   sum overflows on the way.
   */
  lemma DepositEntry(m: Machine, now: i64, user: Key, amount: u64)
    requires Reachable(m)
    ensures var a := m.accounts;
      Apply(a, now, DepositCreate(user, amount)).Ok? <==>
      DepositGate(a) && 0 < amount <= Balance(a.tokens, user) && CanAdd(a.deposits, user, now)
      && 0 < a.vault.navPerShare && a.vault.minDeposit <= amount
      && a.vault.totalAssets + a.vault.pendingDeposits + amount <= a.vault.depositCap
  {
    RequestIsHeld(m, user);
    DepositEnters(m.accounts, now, user, amount);
  }

  lemma DepositEnters(a: Accounts, now: i64, user: Key, amount: u64)
    requires user in a.deposits ==> a.deposits[user].amount <= a.vault.pendingDeposits
    ensures CreateDeposit(a, now, user, amount).Ok? <==>
            DepositGate(a) && 0 < amount <= Balance(a.tokens, user) && CanAdd(a.deposits, user, now)
            && 0 < a.vault.navPerShare && a.vault.minDeposit <= amount
            && a.vault.totalAssets + a.vault.pendingDeposits + amount <= a.vault.depositCap
  {
  }

  /** Exactly when a withdrawal request is accepted: a whole balance may be withdrawn however small it is. */
  lemma WithdrawalEntry(m: Machine, now: i64, user: Key, shares: u64)
    requires Reachable(m)
    ensures var a := m.accounts;
      Apply(a, now, WithdrawalCreate(user, shares)).Ok? <==>
      WithdrawalGate(a) && 0 < shares <= Balance(a.shares, user) && CanAdd(a.withdrawals, user, now)
      && (a.vault.minWithdrawalShares <= shares || shares == Balance(a.shares, user))
  {
    RequestIsHeld(m, user);
    assert m.accounts.vault.pendingWithdrawalShares <= m.accounts.shareEscrow && SharesConserved(m.accounts) by {
      ReachableIsGood(m);
    }
    TotalRemove(m.accounts.shares, user);
    WithdrawalEnters(m.accounts, now, user, shares);
  }

  lemma WithdrawalEnters(a: Accounts, now: i64, user: Key, shares: u64)
    requires user in a.withdrawals ==> a.withdrawals[user].amount <= a.vault.pendingWithdrawalShares
    requires a.vault.pendingWithdrawalShares + Balance(a.shares, user) <= U64_MAX
    ensures CreateWithdrawal(a, now, user, shares).Ok? <==>
            WithdrawalGate(a) && 0 < shares <= Balance(a.shares, user) && CanAdd(a.withdrawals, user, now)
            && (a.vault.minWithdrawalShares <= shares || shares == Balance(a.shares, user))
  {
  }

  // Exits

  /** A settlement of one live withdrawal request cannot fail on arithmetic. */
  lemma WithdrawalArithmetic(a: Accounts, user: Key)
    requires Solvent(a) && OutflowCovered(a)
    requires user in a.withdrawals && a.withdrawals[user].Resolvable(a.vault.navEpoch)
    requires a.withdrawals[user].amount <= a.shareSupply
    ensures var paid := PayoutFor(a.withdrawals[user].amount, a.vault.navPerShare);
      0 <= paid <= a.vault.totalAssets && a.vault.epochOutflow + paid <= U64_MAX
  {
    var shares := a.withdrawals[user].amount;
    var matured: Table := Matured(a.withdrawals, a.vault.navEpoch);
    SharesAreCovered(a, shares);
    assert matured[user] == shares;
    TotalRemove(matured, user);
    OutflowFits(a.vault.epochOutflow, Total(matured), shares, a.vault.navPerShare);
  }

  lemma OutflowFits(outflow: nat, matured: nat, shares: nat, nav: nat)
    requires shares <= matured && outflow * NAV_PRECISION + nav * matured <= U64_MAX * NAV_PRECISION
    ensures outflow + PayoutFor(shares, nav) <= U64_MAX
  {
    PayoutCovered(outflow, matured, shares, nav);
    MulNat(nav, matured - shares);
  }

  /**
   A pending withdrawal is at every moment exactly one of cancellable or resolvable. Cancelling needs
   nothing else; resolving needs open gates and enough idle tokens, never luck with the arithmetic.
   */
  lemma WithdrawalExits(m: Machine, now: i64, user: Key)
    requires Reachable(m) && user in m.accounts.withdrawals
    ensures var a := m.accounts; var r := a.withdrawals[user];
      Apply(a, now, WithdrawalCancel(user)).Ok? <==> !r.Resolvable(a.vault.navEpoch)
    ensures var a := m.accounts; var r := a.withdrawals[user];
      Apply(a, now, WithdrawalResolve(user)).Ok? <==>
      r.Resolvable(a.vault.navEpoch) && WithdrawalGate(a) && PayoutFor(r.amount, a.vault.navPerShare) <= a.idle
  {
    RequestIsHeld(m, user);
    if m.accounts.withdrawals[user].Resolvable(m.accounts.vault.navEpoch) {
      assert Solvent(m.accounts) && OutflowCovered(m.accounts) by { ReachableIsGood(m); }
      WithdrawalArithmetic(m.accounts, user);
      WithdrawalWorks(m.accounts, user);
    }
  }

  /** With the arithmetic out of the way, only the gates and the idle balance decide. */
  lemma WithdrawalWorks(a: Accounts, user: Key)
    requires !a.closed && user in a.withdrawals && a.withdrawals[user].Resolvable(a.vault.navEpoch)
    requires var shares := a.withdrawals[user].amount; var paid := PayoutFor(shares, a.vault.navPerShare);
      shares <= a.vault.pendingWithdrawalShares && shares <= a.shareEscrow && shares <= a.shareSupply
      && paid <= a.vault.totalAssets && a.vault.epochOutflow + paid <= U64_MAX
    ensures ResolveWithdrawalRequest(a, user).Ok? <==>
            WithdrawalGate(a) && PayoutFor(a.withdrawals[user].amount, a.vault.navPerShare) <= a.idle
  {
  }

  /**
   A pending deposit is at every moment exactly one of cancellable or matured at a positive NAV. There
   settling fails, open gates aside, only on the share quotient or on a sum that leaves u64.
   */
  lemma DepositExits(m: Machine, now: i64, user: Key)
    requires Reachable(m) && user in m.accounts.deposits
    ensures var a := m.accounts; var r := a.deposits[user];
      Apply(a, now, DepositCancel(user)).Ok? <==> !(r.Resolvable(a.vault.navEpoch) && 0 < a.vault.navPerShare)
    ensures var a := m.accounts; var r := a.deposits[user];
      Apply(a, now, DepositResolve(user)).Ok? <==>
      r.Resolvable(a.vault.navEpoch) && 0 < a.vault.navPerShare && DepositGate(a)
      && 0 < SharesFor(r.amount, a.vault.navPerShare)
      && SharesFor(r.amount, a.vault.navPerShare) + a.shareSupply <= U64_MAX
      && a.vault.totalAssets + r.amount <= U64_MAX
  {
    RequestIsHeld(m, user);
    DepositWorks(m.accounts, user);
  }

  lemma DepositWorks(a: Accounts, user: Key)
    requires !a.closed && user in a.deposits
    requires a.deposits[user].amount <= a.vault.pendingDeposits && a.deposits[user].amount <= a.depositEscrow
    ensures var r := a.deposits[user];
      ResolveDepositRequest(a, user).Ok? <==>
      r.Resolvable(a.vault.navEpoch) && 0 < a.vault.navPerShare && DepositGate(a)
      && 0 < SharesFor(r.amount, a.vault.navPerShare)
      && SharesFor(r.amount, a.vault.navPerShare) + a.shareSupply <= U64_MAX
      && a.vault.totalAssets + r.amount <= U64_MAX
  {
    if 0 < a.vault.navPerShare {
      DepositDust(a.deposits[user].amount, a.vault.navPerShare);
    }
  }

  /** No entry from `from` on closes the request of `user`. */
  predicate StillOpen(log: Log, from: nat, side: Side, user: Key) {
    forall i :: from <= i < |log| ==> !ClosedFor(log[i].event, side, user)
  }

  lemma MaturedStep(m: Machine, tx: Tx, user: Key)
    requires Clocked(m) && m.now <= tx.now && user in m.accounts.withdrawals
    requires m.accounts.withdrawals[user].Resolvable(m.accounts.vault.navEpoch)
    requires StillOpen(Step(m, tx).log, |m.log|, WithdrawalSide, user)
    ensures var a' := Step(m, tx).accounts;
      user in a'.withdrawals && a'.withdrawals[user] == m.accounts.withdrawals[user]
      && m.accounts.vault.navEpoch <= a'.vault.navEpoch
  {
    NavEpochNotAhead(m, tx.now);
    if Apply(m.accounts, tx.now, tx.ix).Ok? {
      var o := Apply(m.accounts, tx.now, tx.ix).value;
      assert !ClosedFor(Step(m, tx).log[|m.log|].event, WithdrawalSide, user);
      StepTracked(m.accounts, tx.now, tx.ix, o);
      NavEpochRises(m.accounts, tx.now, tx.ix, o);
    }
  }

  lemma NavEpochRises(a: Accounts, now: i64, ix: Instruction, o: Outcome)
    requires Apply(a, now, ix) == Ok(o)
    ensures a.vault.navEpoch <= o.accounts.vault.navEpoch
  {
    if ix.IsRequest() {
      TermsUntouched(a, now, ix, o);
    } else if ix.IsOutside() {
      VaultUntouched(a, now, ix, o);
    } else if ix.IsPost() {
      PostApplied(a, now, ix, o);
      InstructionIsPosted(a, now, ix.totalAssets, ix.BoundOf(a.config), o);
    } else {
      PricesUntouched(a, now, ix, o);
    }
  }

  lemma {:induction false} LogGrows(m: Machine, txs: seq<Tx>)
    ensures |m.log| <= |Run(m, txs).log| && Run(m, txs).log[..|m.log|] == m.log
    decreases |txs|
  {
    if txs != [] {
      LogGrows(Step(m, txs[0]), txs[1..]);
    }
  }

  /** A withdrawal that can be resolved never becomes cancellable again, nor changes, however the run goes on. */
  lemma {:induction false} MaturedStaysMatured(m: Machine, txs: seq<Tx>, user: Key)
    requires GoodStanding(m) && Ordered(m.now, txs) && user in m.accounts.withdrawals
    requires m.accounts.withdrawals[user].Resolvable(m.accounts.vault.navEpoch)
    requires StillOpen(Run(m, txs).log, |m.log|, WithdrawalSide, user)
    ensures var a' := Run(m, txs).accounts;
      user in a'.withdrawals && a'.withdrawals[user] == m.accounts.withdrawals[user]
      && a'.withdrawals[user].Resolvable(a'.vault.navEpoch)
    decreases |txs|
  {
    if txs != [] {
      var next := Step(m, txs[0]);
      LogGrows(next, txs[1..]);
      forall i | |m.log| <= i < |next.log| ensures !ClosedFor(next.log[i].event, WithdrawalSide, user) {
        assert Run(m, txs).log[i] == next.log[i];
      }
      MaturedStep(m, txs[0], user);
      StepKeepsStanding(m, txs[0]);
      StepClock(m, txs[0]);
      MaturedStaysMatured(next, txs[1..], user);
    }
  }

  // Closing

  /** The close guards pass exactly when nothing of anyone's is left. */
  lemma ClosingStrandsNobody(m: Machine)
    requires Reachable(m)
    ensures var a := m.accounts;
      CloseVault(a).Ok? <==>
      !a.closed && a.deposits == map[] && a.withdrawals == map[] && a.strategies == map[]
      && (forall user :: Balance(a.shares, user) == 0)
      && a.vault.unclaimedManagerFeeShares == 0 && a.vault.unclaimedPlatformFeeShares == 0
      && a.vault.totalAssets == 0 && a.idle == 0
      && DonatedTokens(m.log) == 0 && DonatedShares(m.log) == 0
  {
    ReachableIsGood(m);
    var a := m.accounts;
    if CloseVault(a).Ok? {
      NoPendingNoRequests(a.deposits, m.log, DepositSide);
      NoPendingNoRequests(a.withdrawals, m.log, WithdrawalSide);
      TotalZero(a.shares);
      assert |a.strategies| == 0;
    }
    if a.deposits == map[] && a.withdrawals == map[] && forall user :: Balance(a.shares, user) == 0 {
      assert Amounts(a.deposits) == map[] && Amounts(a.withdrawals) == map[];
      ZeroTotal(a.shares);
    }
  }

  lemma {:induction false} ZeroTotal(t: Table)
    requires forall k :: Balance(t, k) == 0
    ensures Total(t) == 0
    decreases |t|
  {
    if t != map[] {
      var k :| k in t;
      TotalWithout(t, k);
      assert Balance(t, k) == 0;
      forall j ensures Balance(t - {k}, j) == 0 {
        assert Balance(t, j) == 0;
      }
      ZeroTotal(t - {k});
    }
  }

  /** Closing a live record never takes the counter below zero, and ids are never reused. */
  lemma RecordsAreCounted(m: Machine, now: i64, record: Key)
    requires Reachable(m)
    ensures m.accounts.vault.openStrategyCount == |m.accounts.strategies|
    ensures var ids := m.accounts.strategies;
      forall r, r' :: r in ids && r' in ids && ids[r] == ids[r'] ==> r == r'
    ensures record in m.accounts.strategies && !m.accounts.closed
            && m.accounts.config.status != Paused && m.accounts.vault.status != Paused ==>
              Apply(m.accounts, now, StrategyClose(record, true)).Ok?
  {
    ReachableIsGood(m);
    if record in m.accounts.strategies {
      CloseNeverUnderflows(m.accounts, record);
    }
  }
}
