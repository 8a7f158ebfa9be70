/**
 The high-water mark over whole runs, and when performance fees accrue.
 */
module HighWaterMark {
  import opened Words
  import opened VaultModel
  import opened Protocol
  import opened Runs
  import opened Frames
  import opened Posting
  import opened Solvency

  /** The mark is the maximum of NAV_PRECISION and every NAV ever posted. */
  predicate Marked(v: VaultState, log: Log) {
    v.highWaterMark == PeakNav(log)
  }

  lemma KeepsMarked(a: Accounts, log: Log, now: i64, ix: Instruction, o: Outcome)
    requires Marked(a.vault, log) && Apply(a, now, ix) == Ok(o)
    ensures Marked(o.accounts.vault, log + [Entry(now, o.event)])
  {
    Appended(log, Entry(now, o.event));
    if ix.IsRequest() {
      TermsUntouched(a, now, ix, o);
    } else if ix.IsOutside() {
      VaultUntouched(a, now, ix, o);
    } else if ix.IsPost() {
      PostApplied(a, now, ix, o);
      InstructionIsPosted(a, now, ix.totalAssets, ix.BoundOf(a.config), o);
    } else {
      PricesUntouched(a, now, ix, o);
    }
  }

  /** A profit is eligible only if the gross NAV exceeds the mark. */
  lemma EligibleOnlyAboveMark(totalAssets: nat, supply: nat, highWaterMark: nat)
    requires 0 < supply && 0 < EligibleProfit(totalAssets, supply, highWaterMark)
    ensures NavOf(totalAssets, supply) > highWaterMark
  {
  }

  // Reposting

  /** Accounts at whose own total assets a new post would find no profit above the mark. */
  predicate NoUnrealizedProfit(a: Accounts) {
    a.Supply() == 0 || NavOf(a.vault.totalAssets, a.Supply()) <= a.vault.highWaterMark
  }

  /** Every post leaves no profit to charge. */
  lemma PostRealizesProfit(a: Accounts, now: i64, totalAssets: u64, bound: Option<u16>, o: Outcome)
    requires Post(a, now, totalAssets, bound) == Ok(o)
    ensures NoUnrealizedProfit(o.accounts)
  {
    InstructionIsPosted(a, now, totalAssets, bound, o);
  }

  /** Anything that moves no assets and no supply: no settlement, no burn, and posts only of the assets recorded. */
  predicate NoFlow(ix: Instruction, totalAssets: u64) {
    !ix.DepositResolve? && !ix.WithdrawalResolve? && !ix.SharesBurn? && (ix.IsPost() ==> ix.totalAssets == totalAssets)
  }

  /** Claiming moves fee shares from a counter to the mint and, like requests, changes nothing that prices them. */
  lemma PricesKept(a: Accounts, now: i64, ix: Instruction, o: Outcome)
    requires NoFlow(ix, a.vault.totalAssets) && !ix.IsPost() && Apply(a, now, ix) == Ok(o)
    ensures o.accounts.Supply() == a.Supply()
    ensures o.accounts.vault.totalAssets == a.vault.totalAssets && o.accounts.vault.highWaterMark == a.vault.highWaterMark
  {
    SurplusUnmoved(a, now, ix, o);
    if ix.IsRequest() {
      ReturnsAreUnpriced(a, now, ix, o);
      TermsUntouched(a, now, ix, o);
    } else if ix.IsOutside() {
      VaultUntouched(a, now, ix, o);
    } else {
      PricesUntouched(a, now, ix, o);
    }
  }

  lemma NoFlowKeepsProfit(a: Accounts, now: i64, ix: Instruction, o: Outcome)
    requires NoUnrealizedProfit(a) && NoFlow(ix, a.vault.totalAssets) && Apply(a, now, ix) == Ok(o)
    ensures NoUnrealizedProfit(o.accounts) && o.accounts.vault.totalAssets == a.vault.totalAssets
  {
    if ix.IsPost() {
      PostApplied(a, now, ix, o);
      InstructionIsPosted(a, now, ix.totalAssets, ix.BoundOf(a.config), o);
      PostRealizesProfit(a, now, ix.totalAssets, ix.BoundOf(a.config), o);
    } else {
      PricesKept(a, now, ix, o);
    }
  }

  /** The performance fees due on a post of `totalAssets`, in deposit tokens. */
  function PerformanceFeesAt(a: Accounts, totalAssets: u64): nat {
    if a.Supply() == 0 then 0 else
      var profit := EligibleProfit(totalAssets, a.Supply(), a.vault.highWaterMark);
      PerformanceFee(profit, a.vault.performanceFeeBps) + PerformanceFee(profit, a.config.platformPerformanceFeeBps)
  }

  /** The fees due are the management fees on the elapsed time and these. */
  lemma FeesSplit(a: Accounts, now: i64, totalAssets: u64, bound: Option<u16>)
    requires 0 < a.Supply()
    ensures var elapsed := Elapsed(a.vault, now);
      FeesDue(a.vault, PostArgs(a, now, totalAssets, bound)).Total()
      == ManagementFee(totalAssets, a.vault.managementFeeBps, elapsed)
         + ManagementFee(totalAssets, a.config.platformManagementFeeBps, elapsed)
         + PerformanceFeesAt(a, totalAssets)
  {
  }

  lemma NoProfitNoFee(a: Accounts)
    requires NoUnrealizedProfit(a)
    ensures PerformanceFeesAt(a, a.vault.totalAssets) == 0
  {
  }

  function PerformanceFeesOfTx(m: Machine, tx: Tx): nat {
    if tx.ix.IsPost() && Apply(m.accounts, tx.now, tx.ix).Ok? then PerformanceFeesAt(m.accounts, tx.ix.totalAssets) else 0
  }

  /** The performance fees that the posts of a run charge. */
  function PerformanceFeesOf(m: Machine, txs: seq<Tx>): nat
    decreases |txs|
  {
    if txs == [] then 0 else PerformanceFeesOfTx(m, txs[0]) + PerformanceFeesOf(Step(m, txs[0]), txs[1..])
  }

  lemma RepostStep(m: Machine, tx: Tx)
    requires NoUnrealizedProfit(m.accounts) && NoFlow(tx.ix, m.accounts.vault.totalAssets)
    ensures PerformanceFeesOfTx(m, tx) == 0
    ensures NoUnrealizedProfit(Step(m, tx).accounts)
    ensures Step(m, tx).accounts.vault.totalAssets == m.accounts.vault.totalAssets
  {
    NoProfitNoFee(m.accounts);
    if Apply(m.accounts, tx.now, tx.ix).Ok? {
      NoFlowKeepsProfit(m.accounts, tx.now, tx.ix, Apply(m.accounts, tx.now, tx.ix).value);
    }
  }

  /** Reposting the same assets is never charged a performance fee, however often it is repeated. */
  lemma {:induction false} RepostingIsFree(m: Machine, txs: seq<Tx>)
    requires NoUnrealizedProfit(m.accounts)
    requires forall i :: 0 <= i < |txs| ==> NoFlow(txs[i].ix, m.accounts.vault.totalAssets)
    ensures PerformanceFeesOf(m, txs) == 0
    decreases |txs|
  {
    if txs != [] {
      RepostStep(m, txs[0]);
      RepostingIsFree(Step(m, txs[0]), txs[1..]);
    }
  }
}
