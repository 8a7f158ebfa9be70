/**
 How concrete runs begin: one user deposits into a new vault, the first post prices shares at par, and the
 deposit is settled. Runs that exhibit something about priced shares go on from here.
 */
module Founding {
  import opened Words
  import opened Arithmetic
  import opened Tables
  import opened VaultModel
  import opened Requests
  import opened Protocol
  import opened Runs

  const FOUNDER: Key := 7

  const EPOCH_1: i64 := 14_400

  /** The new vault takes a deposit of `amount` from its founder. */
  predicate Opens(g: Genesis, amount: u64) {
    g.Valid() && g.config.status == Normal && g.vault.currentTs == 0 && g.idle == 0
    && 0 < amount <= Balance(g.tokens, FOUNDER) && g.vault.minDeposit <= amount <= g.vault.depositCap
  }

  /** A new vault is as it was asked for, and its first deposit is accepted exactly within the limits that were given. */
  lemma NewVaultIsAsGiven(g: Genesis, now: i64, user: Key, amount: u64)
    requires g.Valid()
    ensures var a := g.Start().accounts;
      (Apply(a, now, DepositCreate(user, amount)).Ok? <==>
         g.config.status == Normal && 0 < amount <= Balance(g.tokens, user)
         && g.vault.minDeposit <= amount <= g.vault.depositCap)
      && a.vault.performanceFeeBps == g.vault.performanceFeeBps && a.vault.managementFeeBps == g.vault.managementFeeBps
      && a.vault.minWithdrawalShares == g.vault.minWithdrawalShares
      && a.vault.navPerShare == 1_000_000_000 == a.vault.highWaterMark && a.vault.lastNavTs == g.vault.currentTs
      && a.authority == g.authority && a.depositMint == g.depositMint && a.shareMint == g.shareMint
      && a.config == g.config.(nextVaultId := g.config.nextVaultId + 1)
      && a.tokens == g.tokens && a.idle == g.idle && a.Supply() == 0 && !a.closed
  {
  }

  /** A deposit by a user without a live request. */
  lemma Deposits(a: Accounts, now: i64, user: Key, amount: u64)
    requires DepositsOpen(a).Ok? && user !in a.deposits && 0 < amount <= Balance(a.tokens, user)
    requires 0 < a.vault.navPerShare && a.vault.minDeposit <= amount
    requires a.vault.totalAssets + a.vault.pendingDeposits + amount <= a.vault.depositCap
    ensures CreateDeposit(a, now, user, amount) == Ok(Outcome(
              a.(vault := a.vault.(pendingDeposits := a.vault.pendingDeposits + amount),
                 deposits := a.deposits[user := Request(amount, Epoch(now), now)],
                 tokens := Debit(a.tokens, user, amount), depositEscrow := a.depositEscrow + amount),
              DepositRequested(user, amount)))
  {
  }

  /** A post on an empty supply, with no fee change pending. */
  lemma PostsAtPar(a: Accounts, now: i64, totalAssets: u64)
    requires !a.closed && a.idle <= totalAssets && a.Supply() == 0
    requires a.vault.navEpoch < Epoch(now) && a.vault.feeEffectiveTs == 0
    ensures Post(a, now, totalAssets, None) == Ok(Outcome(
              a.(vault := a.vault.(navPerShare := NAV_PRECISION, totalAssets := totalAssets,
                                   navEpoch := Epoch(now), lastNavTs := now, epochOutflow := 0)),
              NavPosted(totalAssets, NAV_PRECISION, NavFeeShares(0, 0), 0, None)))
  {
  }

  /** The settlement of the only deposit there is. */
  lemma Settles(a: Accounts, user: Key, amount: u64, minted: u64)
    requires DepositsOpen(a).Ok? && user in a.deposits && a.deposits[user].Resolvable(a.vault.navEpoch)
    requires a.deposits[user].amount == amount == a.vault.pendingDeposits == a.depositEscrow
    requires 0 < a.vault.navPerShare && 0 < minted == SharesFor(amount, a.vault.navPerShare)
    requires a.shareSupply + minted <= U64_MAX && a.vault.totalAssets + amount <= U64_MAX
    ensures ResolveDepositRequest(a, user) == Ok(Outcome(
              a.(vault := a.vault.(pendingDeposits := 0, totalAssets := a.vault.totalAssets + amount),
                 deposits := a.deposits - {user}, depositEscrow := 0, idle := a.idle + amount,
                 shares := Credit(a.shares, user, minted), shareSupply := a.shareSupply + minted),
              DepositResolved(user, amount, minted, a.vault.navPerShare)))
  {
  }

  /** An override that goes through is a step. */
  lemma PostSteps(m: Machine, now: i64, totalAssets: u64, o: Outcome)
    requires Post(m.accounts, now, totalAssets, None) == Ok(o)
    ensures Step(m, Tx(now, NavOverride(totalAssets))) == Machine(o.accounts, now, m.log + [Entry(now, o.event)])
  {
  }

  lemma SharesAtPar(amount: nat)
    ensures SharesFor(amount, NAV_PRECISION) == amount
  {
    FloorIs(amount * NAV_PRECISION, NAV_PRECISION, amount);
  }

  lemma FirstEpochs()
    ensures Epoch(0) == 0 && Epoch(EPOCH_1) == 1
  {
  }

  /** The accounts, with all of `amount` settled into shares at par. */
  function Founded(g: Genesis, amount: u64): Accounts
    requires Opens(g, amount)
  {
    var a := g.Start().accounts;
    a.(vault := a.vault.(totalAssets := amount, navEpoch := 1, lastNavTs := EPOCH_1),
       tokens := Debit(a.tokens, FOUNDER, amount), shares := Credit(a.shares, FOUNDER, amount),
       shareSupply := amount, idle := amount)
  }

  function FoundingLog(amount: u64): Log {
    [Entry(0, DepositRequested(FOUNDER, amount)),
     Entry(EPOCH_1, NavPosted(0, NAV_PRECISION, NavFeeShares(0, 0), 0, None)),
     Entry(EPOCH_1, DepositResolved(FOUNDER, amount, amount, NAV_PRECISION))]
  }

  /** The founder's deposit is pending. */
  function Pending(g: Genesis, amount: u64, navEpoch: u64, lastNavTs: i64): Accounts
    requires Opens(g, amount)
  {
    var a := g.Start().accounts;
    a.(vault := a.vault.(pendingDeposits := amount, navEpoch := navEpoch, lastNavTs := lastNavTs),
       deposits := map[FOUNDER := Request(amount, 0, 0)], tokens := Debit(a.tokens, FOUNDER, amount), depositEscrow := amount)
  }

  lemma FirstDeposit(g: Genesis, amount: u64) returns (m: Machine)
    requires Opens(g, amount)
    ensures Reachable(m) && m == Machine(Pending(g, amount, 0, 0), 0, FoundingLog(amount)[..1])
  {
    FirstEpochs();
    m := g.Start();
    assert Run(m, []) == m;
    assert ReachedBy(m, g, []);
    Deposits(m.accounts, 0, FOUNDER, amount);
    StepStaysReachable(m, Tx(0, DepositCreate(FOUNDER, amount)));
    m := Step(m, Tx(0, DepositCreate(FOUNDER, amount)));
  }

  lemma FirstPost(g: Genesis, amount: u64) returns (m: Machine)
    requires Opens(g, amount)
    ensures Reachable(m) && m == Machine(Pending(g, amount, 1, EPOCH_1), EPOCH_1, FoundingLog(amount)[..2])
  {
    FirstEpochs();
    m := FirstDeposit(g, amount);
    PostsAtPar(m.accounts, EPOCH_1, 0);
    StepStaysReachable(m, Tx(EPOCH_1, NavOverride(0)));
    m := Step(m, Tx(EPOCH_1, NavOverride(0)));
  }

  /** Any vault that opens for `amount` can be founded. */
  lemma Founds(g: Genesis, amount: u64) returns (m: Machine)
    requires Opens(g, amount)
    ensures Reachable(m) && m == Machine(Founded(g, amount), EPOCH_1, FoundingLog(amount))
  {
    SharesAtPar(amount);
    m := FirstPost(g, amount);
    Settles(m.accounts, FOUNDER, amount, amount);
    StepStaysReachable(m, Tx(EPOCH_1, DepositResolve(FOUNDER)));
    m := Step(m, Tx(EPOCH_1, DepositResolve(FOUNDER)));
    assert m.accounts.deposits == map[];
  }
}
