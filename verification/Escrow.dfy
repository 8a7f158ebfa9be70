/**
 The escrow mirror: the pending totals of the vault are the sums of the live requests, the escrow
 accounts hold exactly those totals plus what outsiders donated, and every minted share is in a wallet
 or in the share escrow.
 */
module Escrow {
  import opened Words
  import opened Tables
  import opened Requests
  import opened Protocol
  import opened Runs
  import opened Frames

  predicate DepositsMirrored(a: Accounts, log: Log) {
    a.depositEscrow == a.vault.pendingDeposits + DonatedTokens(log)
  }

  predicate SharesMirrored(a: Accounts, log: Log) {
    a.shareEscrow == a.vault.pendingWithdrawalShares + DonatedShares(log)
  }

  ghost predicate PendingSummed(a: Accounts) {
    a.vault.pendingDeposits == Total(Amounts(a.deposits))
    && a.vault.pendingWithdrawalShares == Total(Amounts(a.withdrawals))
  }

  ghost predicate SharesConserved(a: Accounts) {
    a.shareSupply == Total(a.shares) + a.shareEscrow
  }

  ghost predicate Mirrored(a: Accounts, log: Log) {
    DepositsMirrored(a, log) && SharesMirrored(a, log) && PendingSummed(a) && SharesConserved(a)
  }

  lemma EscrowsAfterDeposit(a: Accounts, log: Log, now: i64, ix: Instruction, o: Outcome)
    requires DepositsMirrored(a, log) && SharesMirrored(a, log)
    requires ix.OnDeposit() && Apply(a, now, ix) == Ok(o)
    ensures DepositsMirrored(o.accounts, log + [Entry(now, o.event)])
    ensures SharesMirrored(o.accounts, log + [Entry(now, o.event)])
  {
    Appended(log, Entry(now, o.event));
  }

  lemma EscrowsAfterWithdrawal(a: Accounts, log: Log, now: i64, ix: Instruction, o: Outcome)
    requires DepositsMirrored(a, log) && SharesMirrored(a, log)
    requires ix.OnWithdrawal() && Apply(a, now, ix) == Ok(o)
    ensures DepositsMirrored(o.accounts, log + [Entry(now, o.event)])
    ensures SharesMirrored(o.accounts, log + [Entry(now, o.event)])
  {
    Appended(log, Entry(now, o.event));
  }

  /** From outside only donations reach the escrows. */
  lemma OutsideDonates(a: Accounts, now: i64, ix: Instruction, o: Outcome)
    requires ix.IsOutside() && Apply(a, now, ix) == Ok(o)
    ensures o.accounts.depositEscrow == a.depositEscrow + if o.event.TokensDonated? then o.event.amount else 0
    ensures o.accounts.shareEscrow == a.shareEscrow + if o.event.SharesDonated? then o.event.shares else 0
  {
  }

  lemma EscrowsAfterOutside(a: Accounts, log: Log, now: i64, ix: Instruction, o: Outcome)
    requires DepositsMirrored(a, log) && SharesMirrored(a, log)
    requires ix.IsOutside() && Apply(a, now, ix) == Ok(o)
    ensures DepositsMirrored(o.accounts, log + [Entry(now, o.event)])
    ensures SharesMirrored(o.accounts, log + [Entry(now, o.event)])
  {
    Appended(log, Entry(now, o.event));
    OutsideDonates(a, now, ix, o);
    VaultUntouched(a, now, ix, o);
  }

  lemma KeepsEscrows(a: Accounts, log: Log, now: i64, ix: Instruction, o: Outcome)
    requires DepositsMirrored(a, log) && SharesMirrored(a, log) && Apply(a, now, ix) == Ok(o)
    ensures DepositsMirrored(o.accounts, log + [Entry(now, o.event)])
    ensures SharesMirrored(o.accounts, log + [Entry(now, o.event)])
  {
    if ix.OnDeposit() {
      EscrowsAfterDeposit(a, log, now, ix, o);
    } else if ix.OnWithdrawal() {
      EscrowsAfterWithdrawal(a, log, now, ix, o);
    } else if ix.IsOutside() {
      EscrowsAfterOutside(a, log, now, ix, o);
    } else {
      EscrowsUntouched(a, now, ix, o);
      RequestsUntouched(a, now, ix, o);
      Appended(log, Entry(now, o.event));
    }
  }

  lemma SumsAfterCreate(a: Accounts, now: i64, user: Key, amount: u64, o: Outcome)
    requires PendingSummed(a)
    requires CreateDeposit(a, now, user, amount) == Ok(o) || CreateWithdrawal(a, now, user, amount) == Ok(o)
    ensures PendingSummed(o.accounts)
  {
    if CreateDeposit(a, now, user, amount) == Ok(o) {
      PutAmount(a.deposits, user, o.accounts.deposits[user]);
    } else {
      PutAmount(a.withdrawals, user, o.accounts.withdrawals[user]);
    }
  }

  lemma DepositSums(a: Accounts, now: i64, ix: Instruction, o: Outcome)
    requires PendingSummed(a) && ix.OnDeposit() && !ix.DepositCreate? && Apply(a, now, ix) == Ok(o)
    ensures PendingSummed(o.accounts)
  {
    RemoveAmount(a.deposits, ix.user);
  }

  lemma WithdrawalSums(a: Accounts, now: i64, ix: Instruction, o: Outcome)
    requires PendingSummed(a) && ix.OnWithdrawal() && !ix.WithdrawalCreate? && Apply(a, now, ix) == Ok(o)
    ensures PendingSummed(o.accounts)
  {
    RemoveAmount(a.withdrawals, ix.user);
  }

  lemma KeepsSums(a: Accounts, now: i64, ix: Instruction, o: Outcome)
    requires PendingSummed(a) && Apply(a, now, ix) == Ok(o)
    ensures PendingSummed(o.accounts)
  {
    if !ix.IsRequest() {
      RequestsUntouched(a, now, ix, o);
    } else if ix.DepositCreate? || ix.WithdrawalCreate? {
      SumsAfterCreate(a, now, ix.user, ix.amount, o);
    } else if ix.OnDeposit() {
      DepositSums(a, now, ix, o);
    } else {
      WithdrawalSums(a, now, ix, o);
    }
  }

  lemma SharesAfterDeposit(a: Accounts, now: i64, ix: Instruction, o: Outcome)
    requires SharesConserved(a) && ix.OnDeposit() && Apply(a, now, ix) == Ok(o)
    ensures SharesConserved(o.accounts)
  {
    if ix.DepositResolve? {
      TotalCredit(a.shares, ix.user, o.event.output);
    }
  }

  lemma SharesAfterWithdrawal(a: Accounts, now: i64, ix: Instruction, o: Outcome)
    requires SharesConserved(a) && ix.OnWithdrawal() && Apply(a, now, ix) == Ok(o)
    ensures SharesConserved(o.accounts)
  {
    match ix
    case WithdrawalCreate(user, amount) => TotalDebit(a.shares, user, amount);
    case WithdrawalCancel(user) => TotalCredit(a.shares, user, o.event.amount);
    case WithdrawalReject(user) => TotalCredit(a.shares, user, o.event.amount);
    case WithdrawalResolve(_) =>
  }

  lemma SharesAfterOutside(a: Accounts, now: i64, ix: Instruction, o: Outcome)
    requires SharesConserved(a) && ix.IsOutside() && Apply(a, now, ix) == Ok(o)
    ensures SharesConserved(o.accounts)
  {
    match ix
    case SharesTransfer(from, to, shares) => SharesAfterTransfer(a, from, to, shares, o);
    case SharesBurn(from, shares) => SharesAfterBurn(a, from, shares, o);
    case SharesDonate(from, shares) => SharesAfterDonation(a, from, shares, o);
    case _ =>
  }

  lemma SharesAfterBurn(a: Accounts, from: Key, shares: u64, o: Outcome)
    requires SharesConserved(a) && BurnShares(a, from, shares) == Ok(o)
    ensures SharesConserved(o.accounts)
  {
    TotalDebit(a.shares, from, shares);
  }

  lemma SharesAfterDonation(a: Accounts, from: Key, shares: u64, o: Outcome)
    requires SharesConserved(a) && DonateShares(a, from, shares) == Ok(o)
    ensures SharesConserved(o.accounts)
  {
    TotalDebit(a.shares, from, shares);
  }

  lemma SharesAfterTransfer(a: Accounts, from: Key, to: Key, shares: u64, o: Outcome)
    requires SharesConserved(a) && TransferShares(a, from, to, shares) == Ok(o)
    ensures SharesConserved(o.accounts)
  {
    TotalDebit(a.shares, from, shares);
    TotalCredit(Debit(a.shares, from, shares), to, shares);
  }

  lemma SharesAfterClaim(a: Accounts, now: i64, ix: Instruction, o: Outcome)
    requires SharesConserved(a) && (ix.ClaimManager? || ix.ClaimPlatform?) && Apply(a, now, ix) == Ok(o)
    ensures SharesConserved(o.accounts)
  {
    TotalCredit(a.shares, o.event.authority, o.event.shares);
  }

  lemma KeepsShares(a: Accounts, now: i64, ix: Instruction, o: Outcome)
    requires SharesConserved(a) && Apply(a, now, ix) == Ok(o)
    ensures SharesConserved(o.accounts)
  {
    if ix.OnDeposit() {
      SharesAfterDeposit(a, now, ix, o);
    } else if ix.OnWithdrawal() {
      SharesAfterWithdrawal(a, now, ix, o);
    } else if ix.IsOutside() {
      SharesAfterOutside(a, now, ix, o);
    } else if ix.ClaimManager? || ix.ClaimPlatform? {
      SharesAfterClaim(a, now, ix, o);
    } else {
      EscrowsUntouched(a, now, ix, o);
    }
  }

  lemma KeepsMirrored(a: Accounts, log: Log, now: i64, ix: Instruction, o: Outcome)
    requires Mirrored(a, log) && Apply(a, now, ix) == Ok(o)
    ensures Mirrored(o.accounts, log + [Entry(now, o.event)])
  {
    KeepsEscrows(a, log, now, ix, o);
    KeepsSums(a, now, ix, o);
    KeepsShares(a, now, ix, o);
  }

  // Deposit tokens

  /** Deposit tokens in wallets, in the deposit escrow and in the vault. */
  ghost function TokensHeld(a: Accounts): int {
    Total(a.tokens) + a.depositEscrow + a.idle
  }

  lemma TokensAfterDeposit(a: Accounts, now: i64, ix: Instruction, o: Outcome)
    requires ix.OnDeposit() && Apply(a, now, ix) == Ok(o)
    ensures TokensHeld(o.accounts) == TokensHeld(a)
  {
    match ix
    case DepositCreate(user, amount) => TotalDebit(a.tokens, user, amount);
    case DepositCancel(user) => TotalCredit(a.tokens, user, o.event.amount);
    case DepositReject(user) => TotalCredit(a.tokens, user, o.event.amount);
    case DepositResolve(_) =>
  }

  lemma TokensAfterWithdrawal(a: Accounts, now: i64, ix: Instruction, o: Outcome)
    requires ix.OnWithdrawal() && Apply(a, now, ix) == Ok(o)
    ensures TokensHeld(o.accounts) == TokensHeld(a)
  {
    if ix.WithdrawalResolve? {
      TotalCredit(a.tokens, ix.user, o.event.output);
    }
  }

  /** No instruction of the program creates or loses a deposit token. */
  lemma TokensConserved(a: Accounts, now: i64, ix: Instruction, o: Outcome)
    requires !ix.IsOutside() && Apply(a, now, ix) == Ok(o)
    ensures TokensHeld(o.accounts) == TokensHeld(a)
  {
    if !ix.IsRequest() {
      EscrowsUntouched(a, now, ix, o);
    } else if ix.OnDeposit() {
      TokensAfterDeposit(a, now, ix, o);
    } else {
      TokensAfterWithdrawal(a, now, ix, o);
    }
  }
}
