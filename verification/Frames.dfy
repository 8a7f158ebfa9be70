/** What whole groups of instructions leave alone. */
module Frames {
  import opened Words
  import opened Protocol
  import opened Posting

  lemma RequestsUntouchedOutside(a: Accounts, now: i64, ix: Instruction, o: Outcome)
    requires ix.IsOutside() && Apply(a, now, ix) == Ok(o)
    ensures o.accounts.deposits == a.deposits && o.accounts.withdrawals == a.withdrawals
  {
  }

  lemma RequestsUntouchedInside(a: Accounts, now: i64, ix: Instruction, o: Outcome)
    requires !ix.IsRequest() && !ix.IsOutside() && !ix.IsPost() && Apply(a, now, ix) == Ok(o)
    ensures o.accounts.deposits == a.deposits && o.accounts.vault.pendingDeposits == a.vault.pendingDeposits
    ensures o.accounts.withdrawals == a.withdrawals
            && o.accounts.vault.pendingWithdrawalShares == a.vault.pendingWithdrawalShares
  {
  }

  /** Only request instructions touch requests and pending totals. */
  lemma RequestsUntouched(a: Accounts, now: i64, ix: Instruction, o: Outcome)
    requires !ix.IsRequest() && Apply(a, now, ix) == Ok(o)
    ensures o.accounts.deposits == a.deposits && o.accounts.vault.pendingDeposits == a.vault.pendingDeposits
    ensures o.accounts.withdrawals == a.withdrawals
            && o.accounts.vault.pendingWithdrawalShares == a.vault.pendingWithdrawalShares
  {
    if ix.IsOutside() {
      RequestsUntouchedOutside(a, now, ix, o);
      VaultUntouched(a, now, ix, o);
    } else if ix.IsPost() {
      PostApplied(a, now, ix, o);
      InstructionIsPosted(a, now, ix.totalAssets, ix.BoundOf(a.config), o);
    } else {
      RequestsUntouchedInside(a, now, ix, o);
    }
  }

  /** All that requests may change in the vault account. */
  predicate TermsKept(a: Accounts, o: Outcome) {
    o.accounts.vault == a.vault.(
      pendingDeposits := o.accounts.vault.pendingDeposits,
      pendingWithdrawalShares := o.accounts.vault.pendingWithdrawalShares,
      totalAssets := o.accounts.vault.totalAssets,
      epochOutflow := o.accounts.vault.epochOutflow)
    && o.accounts.strategies == a.strategies && o.accounts.config == a.config && o.accounts.closed == a.closed
    && !o.event.NavPosted? && !o.event.FeesUpdated?
  }

  lemma DepositKeepsTerms(a: Accounts, now: i64, ix: Instruction, o: Outcome)
    requires ix.OnDeposit() && Apply(a, now, ix) == Ok(o)
    ensures TermsKept(a, o)
  {
  }

  lemma WithdrawalKeepsTerms(a: Accounts, now: i64, ix: Instruction, o: Outcome)
    requires ix.OnWithdrawal() && Apply(a, now, ix) == Ok(o)
    ensures TermsKept(a, o)
  {
  }

  /** Requests leave the terms, rates, clocks and counters of the vault alone. */
  lemma TermsUntouched(a: Accounts, now: i64, ix: Instruction, o: Outcome)
    requires ix.IsRequest() && Apply(a, now, ix) == Ok(o)
    ensures TermsKept(a, o)
  {
    if ix.OnDeposit() {
      DepositKeepsTerms(a, now, ix, o);
    } else {
      WithdrawalKeepsTerms(a, now, ix, o);
    }
  }

  lemma VaultUntouched(a: Accounts, now: i64, ix: Instruction, o: Outcome)
    requires ix.IsOutside() && Apply(a, now, ix) == Ok(o)
    ensures o.accounts.vault == a.vault
    ensures o.accounts.strategies == a.strategies && o.accounts.config == a.config && o.accounts.closed == a.closed
    ensures !o.event.NavPosted? && !o.event.FeesUpdated?
  {
  }

  /** The vault's own instructions move no tokens, and no shares except to mint claims. */
  lemma EscrowsUntouched(a: Accounts, now: i64, ix: Instruction, o: Outcome)
    requires !ix.IsRequest() && !ix.IsOutside() && Apply(a, now, ix) == Ok(o)
    ensures o.accounts.depositEscrow == a.depositEscrow && o.accounts.shareEscrow == a.shareEscrow
    ensures o.accounts.tokens == a.tokens && o.accounts.idle == a.idle
    ensures !o.event.TokensDonated? && !o.event.SharesDonated?
    ensures !ix.ClaimManager? && !ix.ClaimPlatform? ==> o.accounts.shares == a.shares && o.accounts.shareSupply == a.shareSupply
  {
  }

  predicate PricesKept(a: Accounts, o: Outcome) {
    var v, v' := a.vault, o.accounts.vault;
    v'.totalAssets == v.totalAssets && v'.navPerShare == v.navPerShare && v'.highWaterMark == v.highWaterMark
    && v'.navEpoch == v.navEpoch && v'.lastNavTs == v.lastNavTs && v'.epochOutflow == v.epochOutflow
    && o.accounts.Supply() == a.Supply()
    && !o.event.NavPosted?
  }

  lemma ClaimsKeepPrices(a: Accounts, now: i64, ix: Instruction, o: Outcome)
    requires (ix.ClaimManager? || ix.ClaimPlatform?) && Apply(a, now, ix) == Ok(o)
    ensures PricesKept(a, o)
  {
  }

  lemma OthersKeepPrices(a: Accounts, now: i64, ix: Instruction, o: Outcome)
    requires !ix.IsRequest() && !ix.IsOutside() && !ix.IsPost() && !ix.ClaimManager? && !ix.ClaimPlatform?
    requires Apply(a, now, ix) == Ok(o)
    ensures PricesKept(a, o)
  {
  }

  /** Only posts and settlements price anything. */
  lemma PricesUntouched(a: Accounts, now: i64, ix: Instruction, o: Outcome)
    requires !ix.IsRequest() && !ix.IsOutside() && !ix.IsPost() && Apply(a, now, ix) == Ok(o)
    ensures PricesKept(a, o)
  {
    if ix.ClaimManager? || ix.ClaimPlatform? {
      ClaimsKeepPrices(a, now, ix, o);
    } else {
      OthersKeepPrices(a, now, ix, o);
    }
  }

  /** A post, told apart from the other instructions. */
  lemma PostApplied(a: Accounts, now: i64, ix: Instruction, o: Outcome)
    requires ix.IsPost() && Apply(a, now, ix) == Ok(o)
    ensures Post(a, now, ix.totalAssets, ix.BoundOf(a.config)) == Ok(o)
  {
  }
}
