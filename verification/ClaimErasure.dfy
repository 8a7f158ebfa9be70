/**
 Claim erasure: deleting a fee claim from a run changes nothing that matters later. As long as supplies fit
 u64 and nobody is asked for shares that it holds in only one of the two runs, these agree on every event
 apart from the claims themselves, and so on every NAV, fee accrual, settlement price and payout, and on the
 final accounts apart from who holds the fee shares.
 */
module ClaimErasure {
  import opened Words
  import opened Tables
  import opened VaultModel
  import opened Requests
  import opened Protocol
  import opened Runs
  import opened Escrow
  import opened Invariant

  /** Equal but for fee shares: claimed or not, and with which of `claimants`. */
  ghost predicate Alike(a: Accounts, b: Accounts, claimants: set<Key>) {
    b == a.(vault := b.vault, shares := b.shares, shareSupply := b.shareSupply)
    && b.vault == a.vault.(
         unclaimedManagerFeeShares := b.vault.unclaimedManagerFeeShares,
         unclaimedPlatformFeeShares := b.vault.unclaimedPlatformFeeShares)
    && b.Supply() == a.Supply()
    && SameOutside(a.shares, b.shares, claimants)
  }

  ghost predicate SameOutside(s: Table, t: Table, claimants: set<Key>) {
    forall k :: k !in claimants ==> Balance(s, k) == Balance(t, k)
  }

  /** Having `shares` of its own does not depend on the claim. */
  predicate HoldsAlike(a: Accounts, b: Accounts, user: Key, shares: nat) {
    shares <= Balance(a.shares, user) <==> shares <= Balance(b.shares, user)
  }

  /**
   The instruction does not live off claimed shares: nobody is asked for shares that it holds in one of the
   two runs and not in the other. Claimants may use all that they hold in both. Fees stay claimed into
   `claimants`.
   */
  predicate Spares(a: Accounts, b: Accounts, ix: Instruction, claimants: set<Key>) {
    match ix
    case WithdrawalCreate(user, shares) =>
      HoldsAlike(a, b, user, shares)
      && (a.vault.minWithdrawalShares <= shares || (shares == Balance(a.shares, user) <==> shares == Balance(b.shares, user)))
    case SharesTransfer(from, _, shares) => HoldsAlike(a, b, from, shares)
    case SharesBurn(from, shares) => HoldsAlike(a, b, from, shares)
    case SharesDonate(from, shares) => HoldsAlike(a, b, from, shares)
    case ConfigUpdate(changes) => changes.treasuryAuthority.Some? ==> changes.treasuryAuthority.value in claimants
    case _ => true
  }

  /** Only claimants can live off claimed shares, and they do not while they use no more than they hold in both runs. */
  lemma SparesEnough(a: Accounts, b: Accounts, ix: Instruction, claimants: set<Key>)
    requires Alike(a, b, claimants)
    requires ix.WithdrawalCreate? || ix.SharesTransfer? || ix.SharesBurn? || ix.SharesDonate?
    requires var user, shares :=
               if ix.WithdrawalCreate? then ix.user else ix.from, if ix.WithdrawalCreate? then ix.amount else ix.shares;
      user in claimants ==>
        shares <= Balance(a.shares, user) && shares <= Balance(b.shares, user)
        && (ix.WithdrawalCreate? ==> a.vault.minWithdrawalShares <= shares)
    ensures Spares(a, b, ix, claimants)
  {
  }

  predicate IsClaim(ix: Instruction) {
    ix.ClaimManager? || ix.ClaimPlatform?
  }

  /** Wallets and escrowed shares are backed by the mint. */
  ghost predicate Backed(a: Accounts) {
    SharesConserved(a) && PendingSummed(a) && a.vault.pendingWithdrawalShares <= a.shareEscrow
  }

  // A claim is invisible

  lemma ClaimIsInvisible(a: Accounts, now: i64, ix: Instruction, o: Outcome, claimants: set<Key>)
    requires IsClaim(ix) && Apply(a, now, ix) == Ok(o)
    requires a.authority in claimants && a.config.treasuryAuthority in claimants
    ensures Alike(a, o.accounts, claimants)
    ensures o.event.FeesClaimed?
  {
  }

  lemma AlikeTransitive(a: Accounts, b: Accounts, c: Accounts, claimants: set<Key>)
    requires Alike(a, b, claimants) && Alike(b, c, claimants)
    ensures Alike(a, c, claimants)
  {
  }

  lemma AlikeSymmetric(a: Accounts, b: Accounts, claimants: set<Key>)
    requires Alike(a, b, claimants)
    ensures Alike(b, a, claimants)
  {
  }

  // Every other instruction treats alike accounts alike

  /** Alike accounts went alike: `b` does what `a` did. */
  ghost predicate GoesAlike(o: Outcome, r: Result<Outcome>, claimants: set<Key>) {
    r.Ok? && Alike(o.accounts, r.value.accounts, claimants) && r.value.event == o.event
  }

  lemma DepositOpensAlike(a: Accounts, b: Accounts, now: i64, user: Key, amount: u64, o: Outcome, claimants: set<Key>)
    requires Alike(a, b, claimants) && CreateDeposit(a, now, user, amount) == Ok(o)
    ensures GoesAlike(o, CreateDeposit(b, now, user, amount), claimants)
  {
  }

  lemma DepositCancelsAlike(a: Accounts, b: Accounts, user: Key, o: Outcome, claimants: set<Key>)
    requires Alike(a, b, claimants) && CancelDepositRequest(a, user) == Ok(o)
    ensures GoesAlike(o, CancelDepositRequest(b, user), claimants)
  {
  }

  lemma DepositRejectsAlike(a: Accounts, b: Accounts, user: Key, o: Outcome, claimants: set<Key>)
    requires Alike(a, b, claimants) && RejectDepositRequest(a, user) == Ok(o)
    ensures GoesAlike(o, RejectDepositRequest(b, user), claimants)
  {
  }

  lemma DepositResolvesAlike(a: Accounts, b: Accounts, user: Key, o: Outcome, claimants: set<Key>)
    requires Alike(a, b, claimants) && ResolveDepositRequest(a, user) == Ok(o) && o.accounts.Supply() <= U64_MAX
    ensures GoesAlike(o, ResolveDepositRequest(b, user), claimants)
  {
    var amount := a.deposits[user].amount;
    var settled, settled' := ResolveDeposit(a.vault, amount).value, ResolveDeposit(b.vault, amount).value;
    DepositPaysAlike(a.(vault := settled.vault), b.(vault := settled'.vault), user, amount, settled.output, o, claimants);
  }

  lemma DepositPaysAlike(a: Accounts, b: Accounts, user: Key, amount: u64, minted: u64, o: Outcome, claimants: set<Key>)
    requires Alike(a, b, claimants) && PayDeposit(a, user, amount, minted) == Ok(o) && o.accounts.Supply() <= U64_MAX
    ensures GoesAlike(o, PayDeposit(b, user, amount, minted), claimants)
  {
  }

  lemma WithdrawalOpensAlike(a: Accounts, b: Accounts, now: i64, user: Key, shares: u64, o: Outcome, claimants: set<Key>)
    requires Alike(a, b, claimants) && Spares(a, b, WithdrawalCreate(user, shares), claimants)
    requires CreateWithdrawal(a, now, user, shares) == Ok(o)
    ensures GoesAlike(o, CreateWithdrawal(b, now, user, shares), claimants)
  {
  }

  lemma WithdrawalCancelsAlike(a: Accounts, b: Accounts, user: Key, o: Outcome, claimants: set<Key>)
    requires Alike(a, b, claimants) && CancelWithdrawalRequest(a, user) == Ok(o)
    ensures GoesAlike(o, CancelWithdrawalRequest(b, user), claimants)
  {
  }

  lemma WithdrawalRejectsAlike(a: Accounts, b: Accounts, user: Key, o: Outcome, claimants: set<Key>)
    requires Alike(a, b, claimants) && RejectWithdrawalRequest(a, user) == Ok(o)
    ensures GoesAlike(o, RejectWithdrawalRequest(b, user), claimants)
  {
  }

  lemma WithdrawalResolvesAlike(a: Accounts, b: Accounts, user: Key, o: Outcome, claimants: set<Key>)
    requires Alike(a, b, claimants) && Backed(b) && ResolveWithdrawalRequest(a, user) == Ok(o)
    ensures GoesAlike(o, ResolveWithdrawalRequest(b, user), claimants)
  {
    RemoveAmount(b.withdrawals, user);
    var burned := a.withdrawals[user].amount;
    var settled := ResolveWithdrawal(a.vault, burned).value;
    var settled' := ResolveWithdrawal(b.vault, burned).value;
    WithdrawalPaysAlike(a.(vault := settled.vault), b.(vault := settled'.vault), user, burned, settled.output, o, claimants);
  }

  lemma WithdrawalPaysAlike(a: Accounts, b: Accounts, user: Key, burned: u64, amount: u64, o: Outcome, claimants: set<Key>)
    requires Alike(a, b, claimants) && burned <= b.shareSupply
    requires amount <= a.idle && PayWithdrawal(a, user, burned, amount) == Ok(o)
    ensures GoesAlike(o, PayWithdrawal(b, user, burned, amount), claimants)
  {
  }

  lemma SharesMoveAlike(a: Accounts, b: Accounts, from: Key, to: Key, shares: u64, o: Outcome, claimants: set<Key>)
    requires Alike(a, b, claimants) && HoldsAlike(a, b, from, shares) && TransferShares(a, from, to, shares) == Ok(o)
    ensures GoesAlike(o, TransferShares(b, from, to, shares), claimants)
  {
  }

  lemma SharesBurnAlike(a: Accounts, b: Accounts, from: Key, shares: u64, o: Outcome, claimants: set<Key>)
    requires Alike(a, b, claimants) && Backed(b) && HoldsAlike(a, b, from, shares) && BurnShares(a, from, shares) == Ok(o)
    ensures GoesAlike(o, BurnShares(b, from, shares), claimants)
  {
    TotalRemove(b.shares, from);
  }

  lemma SharesDonateAlike(a: Accounts, b: Accounts, from: Key, shares: u64, o: Outcome, claimants: set<Key>)
    requires Alike(a, b, claimants) && HoldsAlike(a, b, from, shares) && DonateShares(a, from, shares) == Ok(o)
    ensures GoesAlike(o, DonateShares(b, from, shares), claimants)
  {
  }

  lemma TokensDonateAlike(a: Accounts, b: Accounts, from: Key, amount: u64, o: Outcome, claimants: set<Key>)
    requires Alike(a, b, claimants) && DonateTokens(a, from, amount) == Ok(o)
    ensures GoesAlike(o, DonateTokens(b, from, amount), claimants)
  {
  }

  lemma TokensMoveAlike(a: Accounts, b: Accounts, now: i64, ix: Instruction, o: Outcome, claimants: set<Key>)
    requires Alike(a, b, claimants)
    requires ix.TokensMove? || ix.Trade?
    requires Apply(a, now, ix) == Ok(o)
    ensures GoesAlike(o, Apply(b, now, ix), claimants)
  {
  }

  lemma OutsideGoesAlike(a: Accounts, b: Accounts, now: i64, ix: Instruction, o: Outcome, claimants: set<Key>)
    requires Alike(a, b, claimants) && Backed(b) && Spares(a, b, ix, claimants)
    requires ix.IsOutside() && Apply(a, now, ix) == Ok(o)
    ensures GoesAlike(o, Apply(b, now, ix), claimants)
  {
    match ix
    case SharesTransfer(from, to, shares) => SharesMoveAlike(a, b, from, to, shares, o, claimants);
    case SharesBurn(from, shares) => SharesBurnAlike(a, b, from, shares, o, claimants);
    case SharesDonate(from, shares) => SharesDonateAlike(a, b, from, shares, o, claimants);
    case TokensDonate(from, amount) => TokensDonateAlike(a, b, from, amount, o, claimants);
    case _ => TokensMoveAlike(a, b, now, ix, o, claimants);
  }

  lemma DilutionGoesAlike(v: VaultState, w: VaultState, bound: Option<u16>, d: Dilution, shareSupply: u64, shareSupply': u64,
                          recorded: (VaultState, NavFeeShares))
    requires w == v.(unclaimedManagerFeeShares := w.unclaimedManagerFeeShares,
                     unclaimedPlatformFeeShares := w.unclaimedPlatformFeeShares)
    requires v.VirtualSupply(shareSupply) == w.VirtualSupply(shareSupply')
    requires RecordDilution(v, bound, d) == Ok(recorded) && recorded.0.VirtualSupply(shareSupply) <= U64_MAX
    ensures var r := RecordDilution(w, bound, d);
      r.Ok? && r.value.1 == recorded.1
      && r.value.0 == recorded.0.(unclaimedManagerFeeShares := w.unclaimedManagerFeeShares + d.managerShares,
                                  unclaimedPlatformFeeShares := w.unclaimedPlatformFeeShares + d.platformShares)
      && r.value.0.VirtualSupply(shareSupply') == recorded.0.VirtualSupply(shareSupply)
  {
  }

  lemma AccrualGoesAlike(a: Accounts, b: Accounts, args: NavUpdateArgs, accrued: (VaultState, NavFeeShares), claimants: set<Key>)
    requires Alike(a, b, claimants) && 0 < a.Supply() && args.shareSupply == a.shareSupply
    requires AccruedFees(a.vault, args) == Ok(accrued) && accrued.0.VirtualSupply(a.shareSupply) <= U64_MAX
    ensures var r := AccruedFees(b.vault, args.(shareSupply := b.shareSupply));
      r.Ok? && r.value.1 == accrued.1
      && r.value.0 == accrued.0.(
           unclaimedManagerFeeShares := b.vault.unclaimedManagerFeeShares + accrued.1.managerFeeShares,
           unclaimedPlatformFeeShares := b.vault.unclaimedPlatformFeeShares + accrued.1.platformFeeShares)
      && r.value.0.VirtualSupply(b.shareSupply) == accrued.0.VirtualSupply(a.shareSupply)
  {
    var args' := args.(shareSupply := b.shareSupply);
    assert FeesDue(b.vault, args') == FeesDue(a.vault, args);
    DilutionGoesAlike(a.vault, b.vault, args.maxNavDeviationBps, Dilute(args.totalAssets, a.Supply(), FeesDue(a.vault, args)),
                      a.shareSupply, b.shareSupply, accrued);
  }

  lemma PostGoesAlike(a: Accounts, b: Accounts, now: i64, totalAssets: u64, bound: Option<u16>, o: Outcome, claimants: set<Key>)
    requires Alike(a, b, claimants) && Post(a, now, totalAssets, bound) == Ok(o) && o.accounts.Supply() <= U64_MAX
    ensures GoesAlike(o, Post(b, now, totalAssets, bound), claimants)
  {
    var args := PostArgs(a, now, totalAssets, bound);
    PricingGoesAlike(a, b, args, PostNav(a.vault, args).value, claimants);
  }

  /** The post of the vault alone. */
  lemma PricingGoesAlike(a: Accounts, b: Accounts, args: NavUpdateArgs, post: NavPost, claimants: set<Key>)
    requires Alike(a, b, claimants) && args.shareSupply == a.shareSupply
    requires PostNav(a.vault, args) == Ok(post) && post.vault.VirtualSupply(a.shareSupply) <= U64_MAX
    ensures var r := PostNav(b.vault, args.(shareSupply := b.shareSupply));
      r.Ok? && r.value.feeShares == post.feeShares
      && r.value.vault == post.vault.(
           unclaimedManagerFeeShares := r.value.vault.unclaimedManagerFeeShares,
           unclaimedPlatformFeeShares := r.value.vault.unclaimedPlatformFeeShares)
      && r.value.vault.VirtualSupply(b.shareSupply) == post.vault.VirtualSupply(a.shareSupply)
  {
    if 0 < a.Supply() {
      AccrualGoesAlike(a, b, args, AccruedFees(a.vault, args).value, claimants);
    }
  }

  lemma PausesGoAlike(a: Accounts, b: Accounts, o: Outcome, claimants: set<Key>)
    requires Alike(a, b, claimants) && PauseVault(a) == Ok(o)
    ensures GoesAlike(o, PauseVault(b), claimants)
  {
  }

  lemma ConfigsGoAlike(a: Accounts, b: Accounts, changes: ConfigUpdateArgs, o: Outcome, claimants: set<Key>)
    requires Alike(a, b, claimants) && UpdateConfig(a, changes) == Ok(o)
    ensures GoesAlike(o, UpdateConfig(b, changes), claimants)
  {
  }

  lemma UpdatesGoAlike(a: Accounts, b: Accounts, now: i64, args: VaultUpdateArgs, o: Outcome, claimants: set<Key>)
    requires Alike(a, b, claimants) && UpdateVault(a, now, args) == Ok(o)
    ensures GoesAlike(o, UpdateVault(b, now, args), claimants)
  {
  }

  lemma StrategyOpensAlike(a: Accounts, b: Accounts, record: Key, o: Outcome, claimants: set<Key>)
    requires Alike(a, b, claimants) && InitializeStrategy(a, record) == Ok(o)
    ensures GoesAlike(o, InitializeStrategy(b, record), claimants)
  {
  }

  lemma StrategyClosesAlike(a: Accounts, b: Accounts, record: Key, emptied: bool, o: Outcome, claimants: set<Key>)
    requires Alike(a, b, claimants) && CloseStrategyRecord(a, record, emptied) == Ok(o)
    ensures GoesAlike(o, CloseStrategyRecord(b, record, emptied), claimants)
  {
  }

  lemma VaultClosesAlike(a: Accounts, b: Accounts, o: Outcome, claimants: set<Key>)
    requires Alike(a, b, claimants) && CloseVault(a) == Ok(o)
    ensures GoesAlike(o, CloseVault(b), claimants)
  {
  }

  lemma RequestsGoAlike(a: Accounts, b: Accounts, now: i64, ix: Instruction, o: Outcome, claimants: set<Key>)
    requires Alike(a, b, claimants) && Backed(b) && Spares(a, b, ix, claimants) && ix.IsRequest()
    requires Apply(a, now, ix) == Ok(o) && o.accounts.Supply() <= U64_MAX
    ensures GoesAlike(o, Apply(b, now, ix), claimants)
  {
    match ix
    case DepositCreate(user, amount) => DepositOpensAlike(a, b, now, user, amount, o, claimants);
    case DepositCancel(user) => DepositCancelsAlike(a, b, user, o, claimants);
    case DepositReject(user) => DepositRejectsAlike(a, b, user, o, claimants);
    case DepositResolve(user) => DepositResolvesAlike(a, b, user, o, claimants);
    case WithdrawalCreate(user, shares) => WithdrawalOpensAlike(a, b, now, user, shares, o, claimants);
    case WithdrawalCancel(user) => WithdrawalCancelsAlike(a, b, user, o, claimants);
    case WithdrawalReject(user) => WithdrawalRejectsAlike(a, b, user, o, claimants);
    case WithdrawalResolve(user) => WithdrawalResolvesAlike(a, b, user, o, claimants);
  }

  lemma InstructionsGoAlike(a: Accounts, b: Accounts, now: i64, ix: Instruction, o: Outcome, claimants: set<Key>)
    requires Alike(a, b, claimants) && Backed(b) && Spares(a, b, ix, claimants) && !IsClaim(ix)
    requires Apply(a, now, ix) == Ok(o) && o.accounts.Supply() <= U64_MAX
    ensures GoesAlike(o, Apply(b, now, ix), claimants)
  {
    if ix.IsRequest() {
      RequestsGoAlike(a, b, now, ix, o, claimants);
    } else {
      OthersGoAlike(a, b, now, ix, o, claimants);
    }
  }

  lemma OthersGoAlike(a: Accounts, b: Accounts, now: i64, ix: Instruction, o: Outcome, claimants: set<Key>)
    requires Alike(a, b, claimants) && Backed(b) && Spares(a, b, ix, claimants) && !ix.IsRequest() && !IsClaim(ix)
    requires Apply(a, now, ix) == Ok(o) && o.accounts.Supply() <= U64_MAX
    ensures GoesAlike(o, Apply(b, now, ix), claimants)
  {
    match ix
    case NavUpdate(totalAssets) => PostGoesAlike(a, b, now, totalAssets, Some(a.config.maxNavDeviationBps), o, claimants);
    case NavOverride(totalAssets) => PostGoesAlike(a, b, now, totalAssets, None, o, claimants);
    case VaultUpdate(args) => UpdatesGoAlike(a, b, now, args, o, claimants);
    case VaultPause => PausesGoAlike(a, b, o, claimants);
    case ConfigUpdate(changes) => ConfigsGoAlike(a, b, changes, o, claimants);
    case StrategyInitialize(record) => StrategyOpensAlike(a, b, record, o, claimants);
    case StrategyClose(record, emptied) => StrategyClosesAlike(a, b, record, emptied, o, claimants);
    case VaultClose => VaultClosesAlike(a, b, o, claimants);
    case _ => OutsideGoesAlike(a, b, now, ix, o, claimants);
  }

  // Runs

  /** The log without the claims. */
  function WithoutClaims(log: Log): Log {
    if log == [] then []
    else WithoutClaims(Front(log)) + (if Last(log).event.FeesClaimed? then [] else [Last(log)])
  }

  /** Along both runs every supply fits u64, and nobody lives off claimed shares. */
  predicate Fits(m: Machine, n: Machine, txs: seq<Tx>, claimants: set<Key>)
    decreases |txs|
  {
    m.accounts.Supply() <= U64_MAX && n.accounts.Supply() <= U64_MAX
    && (txs != [] ==>
          Spares(m.accounts, n.accounts, txs[0].ix, claimants)
          && Fits(Step(m, txs[0]), Step(n, txs[0]), txs[1..], claimants))
  }

  predicate ClaimsInto(a: Accounts, claimants: set<Key>) {
    a.authority in claimants && a.config.treasuryAuthority in claimants
  }

  ghost predicate Twins(m: Machine, n: Machine, claimants: set<Key>) {
    Alike(m.accounts, n.accounts, claimants) && ClaimsInto(m.accounts, claimants)
    && WithoutClaims(m.log) == WithoutClaims(n.log)
  }

  lemma ClaimStep(m: Machine, tx: Tx, claimants: set<Key>)
    requires IsClaim(tx.ix) && ClaimsInto(m.accounts, claimants)
    ensures Twins(m, Step(m, tx), claimants)
  {
    var r := Apply(m.accounts, tx.now, tx.ix);
    if r.Ok? {
      ClaimIsInvisible(m.accounts, tx.now, tx.ix, r.value, claimants);
      Appended(m.log, Entry(tx.now, r.value.event));
    }
  }

  lemma TwinsChain(m: Machine, n: Machine, p: Machine, claimants: set<Key>)
    requires Twins(m, n, claimants) && Twins(n, p, claimants)
    ensures Twins(m, p, claimants) && Twins(n, m, claimants)
  {
    AlikeTransitive(m.accounts, n.accounts, p.accounts, claimants);
    AlikeSymmetric(m.accounts, n.accounts, claimants);
  }

  predicate RecipientsStay(ix: Instruction, claimants: set<Key>) {
    ix.ConfigUpdate? && ix.changes.treasuryAuthority.Some? ==> ix.changes.treasuryAuthority.value in claimants
  }

  lemma RecipientsKept(a: Accounts, now: i64, ix: Instruction, o: Outcome, claimants: set<Key>)
    requires ClaimsInto(a, claimants) && RecipientsStay(ix, claimants) && Apply(a, now, ix) == Ok(o)
    ensures ClaimsInto(o.accounts, claimants)
  {
  }

  lemma OtherStep(m: Machine, n: Machine, tx: Tx, claimants: set<Key>)
    requires Twins(m, n, claimants) && Backed(m.accounts) && Backed(n.accounts)
    requires !IsClaim(tx.ix) && Spares(m.accounts, n.accounts, tx.ix, claimants)
    requires Step(m, tx).accounts.Supply() <= U64_MAX && Step(n, tx).accounts.Supply() <= U64_MAX
    ensures Twins(Step(m, tx), Step(n, tx), claimants)
  {
    var r, r' := Apply(m.accounts, tx.now, tx.ix), Apply(n.accounts, tx.now, tx.ix);
    if r.Ok? {
      InstructionsGoAlike(m.accounts, n.accounts, tx.now, tx.ix, r.value, claimants);
      RecipientsKept(m.accounts, tx.now, tx.ix, r.value, claimants);
      Appended(m.log, Entry(tx.now, r.value.event));
      Appended(n.log, Entry(tx.now, r.value.event));
    } else if r'.Ok? {
      AlikeSymmetric(m.accounts, n.accounts, claimants);
      InstructionsGoAlike(n.accounts, m.accounts, tx.now, tx.ix, r'.value, claimants);
    }
  }

  lemma StandingIsBacked(m: Machine)
    requires GoodStanding(m)
    ensures Backed(m.accounts)
  {
  }

  lemma TwinStep(m: Machine, n: Machine, tx: Tx, claimants: set<Key>)
    requires Twins(m, n, claimants) && GoodStanding(m) && GoodStanding(n) && Spares(m.accounts, n.accounts, tx.ix, claimants)
    requires Step(m, tx).accounts.Supply() <= U64_MAX && Step(n, tx).accounts.Supply() <= U64_MAX
    ensures Twins(Step(m, tx), Step(n, tx), claimants)
  {
    if IsClaim(tx.ix) {
      ClaimStep(m, tx, claimants);
      ClaimStep(n, tx, claimants);
      TwinsChain(m, n, Step(n, tx), claimants);
      TwinsChain(m, Step(m, tx), Step(m, tx), claimants);
      TwinsChain(Step(m, tx), m, Step(n, tx), claimants);
    } else {
      StandingIsBacked(m);
      StandingIsBacked(n);
      OtherStep(m, n, tx, claimants);
    }
  }

  lemma {:induction false} TwinRuns(m: Machine, n: Machine, txs: seq<Tx>, claimants: set<Key>)
    requires Twins(m, n, claimants) && GoodStanding(m) && GoodStanding(n)
    requires Ordered(m.now, txs) && Ordered(n.now, txs)
    requires Fits(m, n, txs, claimants)
    ensures Twins(Run(m, txs), Run(n, txs), claimants)
    decreases |txs|
  {
    if txs != [] {
      TwinStep(m, n, txs[0], claimants);
      StepKeepsStanding(m, txs[0]);
      StepKeepsStanding(n, txs[0]);
      StepClock(m, txs[0]);
      StepClock(n, txs[0]);
      TwinRuns(Step(m, txs[0]), Step(n, txs[0]), txs[1..], claimants);
    }
  }

  /**
   Take any reachable state, any claim and any run after it that does not live off the claimed shares and
   whose supplies fit u64. The run without the claim emits the same events, claims aside, and ends with the same
   assets, NAV, high-water mark, requests, escrows and idle balance.
   */
  lemma {:induction false} ClaimsNeverMatter(m: Machine, claim: Tx, txs: seq<Tx>, claimants: set<Key>)
    requires Reachable(m) && IsClaim(claim.ix) && m.now <= claim.now && Ordered(claim.now, txs)
    requires ClaimsInto(m.accounts, claimants)
    requires Fits(m, Step(m, claim), txs, claimants)
    ensures WithoutClaims(Run(Step(m, claim), txs).log) == WithoutClaims(Run(m, txs).log)
    ensures var a, b := Run(m, txs).accounts, Run(Step(m, claim), txs).accounts;
      b.vault == a.vault.(unclaimedManagerFeeShares := b.vault.unclaimedManagerFeeShares,
                          unclaimedPlatformFeeShares := b.vault.unclaimedPlatformFeeShares)
      && b == a.(vault := b.vault, shares := b.shares, shareSupply := b.shareSupply)
      && b.Supply() == a.Supply()
      && forall k :: k !in claimants ==> Balance(a.shares, k) == Balance(b.shares, k)
  {
    ReachableIsGood(m);
    StepKeepsStanding(m, claim);
    StepClock(m, claim);
    ClaimStep(m, claim, claimants);
    TwinRuns(m, Step(m, claim), txs, claimants);
  }
}
