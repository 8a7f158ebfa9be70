/**
 Wallets as statements of the log. Every entry says whose tokens and shares move and by how much, no instruction
 of the program moves anything else in any wallet, and what an entry says is what the instruction was about.
 */
module Wallets {
  import opened Words
  import opened Arithmetic
  import opened Tables
  import opened VaultModel
  import opened Requests
  import opened Protocol
  import opened Runs
  import opened Frames

  /** The deposit tokens that an entry brings into the wallet of `k`. */
  function TokensIn(e: Event, k: Key): nat {
    match e
    case DepositReturned(user, amount) => if user == k then amount else 0
    case WithdrawalResolved(user, _, paid, _) => if user == k then paid else 0
    case _ => 0
  }

  /** The deposit tokens that it takes out. */
  function TokensOut(e: Event, k: Key): nat {
    match e
    case DepositRequested(user, amount) => if user == k then amount else 0
    case _ => 0
  }

  function SharesIn(e: Event, k: Key): nat {
    match e
    case WithdrawalReturned(user, shares) => if user == k then shares else 0
    case DepositResolved(user, _, minted, _) => if user == k then minted else 0
    case FeesClaimed(_, authority, shares) => if authority == k then shares else 0
    case _ => 0
  }

  function SharesOut(e: Event, k: Key): nat {
    match e
    case WithdrawalRequested(user, shares) => if user == k then shares else 0
    case _ => 0
  }

  // What an entry says

  /** The entry of a request instruction is about its user, and about all that the request holds. */
  lemma EntriesTellTheTruth(a: Accounts, now: i64, ix: Instruction, o: Outcome)
    requires Apply(a, now, ix) == Ok(o)
    ensures match ix
      case DepositCreate(user, amount) => o.event == DepositRequested(user, amount)
      case DepositCancel(user) => user in a.deposits && o.event == DepositReturned(user, a.deposits[user].amount)
      case DepositReject(user) => user in a.deposits && o.event == DepositReturned(user, a.deposits[user].amount)
      case DepositResolve(user) =>
        user in a.deposits && o.event.DepositResolved? && o.event.user == user
        && o.event.amount == a.deposits[user].amount && o.event.navPerShare == a.vault.navPerShare
      case WithdrawalCreate(user, shares) => o.event == WithdrawalRequested(user, shares)
      case WithdrawalCancel(user) => user in a.withdrawals && o.event == WithdrawalReturned(user, a.withdrawals[user].amount)
      case WithdrawalReject(user) => user in a.withdrawals && o.event == WithdrawalReturned(user, a.withdrawals[user].amount)
      case WithdrawalResolve(user) =>
        user in a.withdrawals && o.event.WithdrawalResolved? && o.event.user == user
        && o.event.amount == a.withdrawals[user].amount && o.event.navPerShare == a.vault.navPerShare
      case _ => !o.event.DepositRequested? && !o.event.DepositReturned? && !o.event.DepositResolved?
                && !o.event.WithdrawalRequested? && !o.event.WithdrawalReturned? && !o.event.WithdrawalResolved?
  {
    if !ix.IsRequest() { NoRequestEntry(a, now, ix, o); }
  }

  lemma NoRequestEntry(a: Accounts, now: i64, ix: Instruction, o: Outcome)
    requires !ix.IsRequest() && Apply(a, now, ix) == Ok(o)
    ensures !o.event.DepositRequested? && !o.event.DepositReturned? && !o.event.DepositResolved?
    ensures !o.event.WithdrawalRequested? && !o.event.WithdrawalReturned? && !o.event.WithdrawalResolved?
  {
  }

  /** What a request adds is in the request: it opens in the epoch and at the time of its first contribution, or grows. */
  lemma RequestsGrow(a: Accounts, now: i64, ix: Instruction, o: Outcome)
    requires (ix.DepositCreate? || ix.WithdrawalCreate?) && Apply(a, now, ix) == Ok(o)
    ensures var before := if ix.DepositCreate? then a.deposits else a.withdrawals;
      var after := if ix.DepositCreate? then o.accounts.deposits else o.accounts.withdrawals;
      after == before[ix.user := after[ix.user]]
      && (ix.user !in before ==> after[ix.user] == Request(ix.amount, Epoch(now), now))
      && (ix.user in before ==>
            before[ix.user].epoch == Epoch(now)
            && after[ix.user] == before[ix.user].(amount := before[ix.user].amount + ix.amount))
  {
  }

  /** The shares minted for a deposit are worth it at the NAV of the vault, short of less than one share. */
  lemma DepositPaysTheWorth(a: Accounts, now: i64, user: Key, o: Outcome)
    requires Apply(a, now, DepositResolve(user)) == Ok(o)
    ensures user in a.deposits && o.event.DepositResolved?
    ensures var nav := a.vault.navPerShare;
      o.event.output * nav <= a.deposits[user].amount * 1_000_000_000 < (o.event.output + 1) * nav
  {
    Quotient(a.deposits[user].amount * NAV_PRECISION, a.vault.navPerShare);
  }

  /** The tokens paid for a withdrawal are what the shares are worth, short of less than one unit. */
  lemma WithdrawalPaysTheWorth(a: Accounts, now: i64, user: Key, o: Outcome)
    requires Apply(a, now, WithdrawalResolve(user)) == Ok(o)
    ensures user in a.withdrawals && o.event.WithdrawalResolved?
    ensures var nav := a.vault.navPerShare;
      o.event.output * 1_000_000_000 <= a.withdrawals[user].amount * nav < (o.event.output + 1) * 1_000_000_000
  {
    MulNat(a.withdrawals[user].amount, a.vault.navPerShare);
    Quotient(a.withdrawals[user].amount * a.vault.navPerShare, NAV_PRECISION);
  }

  lemma Quotient(a: nat, b: nat)
    requires 0 < b
    ensures a / b * b <= a < (a / b + 1) * b
  {
    Floor(a, b);
    MulSucc(a / b, b);
  }

  // What an instruction moves

  /** The wallets after an instruction are those before it with the flows of its entry. */
  ghost predicate Flowed(a: Accounts, o: Outcome) {
    (forall k :: Balance(o.accounts.tokens, k) == Balance(a.tokens, k) + TokensIn(o.event, k) - TokensOut(o.event, k))
    && (forall k :: Balance(o.accounts.shares, k) == Balance(a.shares, k) + SharesIn(o.event, k) - SharesOut(o.event, k))
  }

  lemma DepositFlows(a: Accounts, user: Key, o: Outcome)
    requires ResolveDepositRequest(a, user) == Ok(o)
    ensures Flowed(a, o)
  {
  }

  lemma TokenRequestsFlow(a: Accounts, now: i64, ix: Instruction, o: Outcome)
    requires (ix.DepositCreate? || ix.DepositCancel? || ix.DepositReject?) && Apply(a, now, ix) == Ok(o)
    ensures Flowed(a, o)
  {
  }

  lemma WithdrawalFlows(a: Accounts, user: Key, o: Outcome)
    requires ResolveWithdrawalRequest(a, user) == Ok(o)
    ensures Flowed(a, o)
  {
  }

  lemma ShareRequestsFlow(a: Accounts, now: i64, ix: Instruction, o: Outcome)
    requires (ix.WithdrawalCreate? || ix.WithdrawalCancel? || ix.WithdrawalReject?) && Apply(a, now, ix) == Ok(o)
    ensures Flowed(a, o)
  {
  }

  lemma ClaimsFlow(a: Accounts, now: i64, ix: Instruction, o: Outcome)
    requires (ix.ClaimManager? || ix.ClaimPlatform?) && Apply(a, now, ix) == Ok(o)
    ensures Flowed(a, o)
  {
  }

  lemma NoFeesClaimed(a: Accounts, now: i64, ix: Instruction, o: Outcome)
    requires !ix.ClaimManager? && !ix.ClaimPlatform? && Apply(a, now, ix) == Ok(o)
    ensures !o.event.FeesClaimed?
  {
  }

  /** Nothing of the program moves a wallet but as its entry says. */
  lemma WalletsFollowTheLog(a: Accounts, now: i64, ix: Instruction, o: Outcome)
    requires !ix.IsOutside() && Apply(a, now, ix) == Ok(o)
    ensures Flowed(a, o)
  {
    if ix.DepositResolve? {
      DepositFlows(a, ix.user, o);
    } else if ix.WithdrawalResolve? {
      WithdrawalFlows(a, ix.user, o);
    } else if ix.OnDeposit() {
      TokenRequestsFlow(a, now, ix, o);
    } else if ix.OnWithdrawal() {
      ShareRequestsFlow(a, now, ix, o);
    } else if ix.ClaimManager? || ix.ClaimPlatform? {
      ClaimsFlow(a, now, ix, o);
    } else {
      EscrowsUntouched(a, now, ix, o);
      NoRequestEntry(a, now, ix, o);
      NoFeesClaimed(a, now, ix, o);
    }
  }

  /** What others do moves what it says from where it says to where it says, and only what is there. */
  lemma OthersMoveTheirOwn(a: Accounts, now: i64, ix: Instruction, o: Outcome)
    requires ix.IsOutside() && Apply(a, now, ix) == Ok(o)
    ensures match ix
      case SharesTransfer(from, to, shares) =>
        shares <= Balance(a.shares, from)
        && (forall k :: Balance(o.accounts.shares, k) ==
                        Balance(a.shares, k) - (if k == from then shares else 0) + (if k == to then shares else 0))
        && o.accounts == a.(shares := o.accounts.shares)
      case SharesBurn(from, shares) =>
        shares <= Balance(a.shares, from) && shares <= a.shareSupply && o.event == SharesBurned(shares)
        && (forall k :: Balance(o.accounts.shares, k) == Balance(a.shares, k) - (if k == from then shares else 0))
        && o.accounts == a.(shares := o.accounts.shares, shareSupply := a.shareSupply - shares)
      case SharesDonate(from, shares) =>
        shares <= Balance(a.shares, from) && o.event == SharesDonated(shares)
        && (forall k :: Balance(o.accounts.shares, k) == Balance(a.shares, k) - (if k == from then shares else 0))
        && o.accounts == a.(shares := o.accounts.shares, shareEscrow := a.shareEscrow + shares)
      case TokensDonate(from, amount) =>
        amount <= Balance(a.tokens, from) && o.event == TokensDonated(amount)
        && (forall k :: Balance(o.accounts.tokens, k) == Balance(a.tokens, k) - (if k == from then amount else 0))
        && o.accounts == a.(tokens := o.accounts.tokens, depositEscrow := a.depositEscrow + amount)
      case TokensMove(user, balance) =>
        (forall k :: Balance(o.accounts.tokens, k) == if k == user then balance else Balance(a.tokens, k))
        && o.accounts == a.(tokens := o.accounts.tokens)
      case Trade(balance) => o.accounts == a.(idle := balance)
      case _ => true
  {
  }

  // Over runs

  function TokenStatement(log: Log, k: Key): int {
    if log == [] then 0
    else TokenStatement(Front(log), k) + TokensIn(Last(log).event, k) - TokensOut(Last(log).event, k)
  }

  function ShareStatement(log: Log, k: Key): int {
    if log == [] then 0
    else ShareStatement(Front(log), k) + SharesIn(Last(log).event, k) - SharesOut(Last(log).event, k)
  }

  /** Others move the wallet of `k` only by an instruction that names it. */
  predicate Names(ix: Instruction, k: Key) {
    match ix
    case SharesTransfer(from, to, _) => from == k || to == k
    case SharesBurn(from, _) => from == k
    case SharesDonate(from, _) => from == k
    case TokensDonate(from, _) => from == k
    case TokensMove(user, _) => user == k
    case _ => false
  }

  lemma OthersSpare(a: Accounts, now: i64, ix: Instruction, o: Outcome, k: Key)
    requires ix.IsOutside() && !Names(ix, k) && Apply(a, now, ix) == Ok(o)
    ensures Balance(o.accounts.tokens, k) == Balance(a.tokens, k) && Balance(o.accounts.shares, k) == Balance(a.shares, k)
  {
  }

  lemma {:induction false} StepStates(m: Machine, tx: Tx, k: Key)
    requires !Names(tx.ix, k)
    ensures var a, next := m.accounts, Step(m, tx);
      Balance(next.accounts.tokens, k) - TokenStatement(next.log, k) == Balance(a.tokens, k) - TokenStatement(m.log, k)
      && Balance(next.accounts.shares, k) - ShareStatement(next.log, k) == Balance(a.shares, k) - ShareStatement(m.log, k)
  {
    var r := Apply(m.accounts, tx.now, tx.ix);
    if r.Ok? {
      Appended(m.log, Entry(tx.now, r.value.event));
      if tx.ix.IsOutside() {
        OthersSpare(m.accounts, tx.now, tx.ix, r.value, k);
        NoRequestEntry(m.accounts, tx.now, tx.ix, r.value);
        NoFeesClaimed(m.accounts, tx.now, tx.ix, r.value);
      } else {
        WalletsFollowTheLog(m.accounts, tx.now, tx.ix, r.value);
      }
    }
  }

  /**
   Over any run in which others leave a wallet alone, it holds what it held and what the log says has come in
   since, in tokens and in shares.
   */
  lemma {:induction false} StatementsBalance(m: Machine, txs: seq<Tx>, k: Key)
    requires forall i :: 0 <= i < |txs| ==> !Names(txs[i].ix, k)
    ensures var a, end := m.accounts, Run(m, txs);
      Balance(end.accounts.tokens, k) == Balance(a.tokens, k) + TokenStatement(end.log, k) - TokenStatement(m.log, k)
      && Balance(end.accounts.shares, k) == Balance(a.shares, k) + ShareStatement(end.log, k) - ShareStatement(m.log, k)
    decreases |txs|
  {
    if txs != [] {
      StepStates(m, txs[0], k);
      StatementsBalance(Step(m, txs[0]), txs[1..], k);
    }
  }
}
