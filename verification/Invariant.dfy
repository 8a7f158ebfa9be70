/**
 The invariant of all runs: everything the single laws keep, kept together. It holds of every reachable
 machine, so each guarantee (Guarantees.dfy) may start from it.
 */
module Invariant {
  import opened Words
  import opened VaultModel
  import opened Requests
  import opened Protocol
  import opened Runs
  import opened Frames
  import opened Posting
  import opened Solvency
  import opened Escrow
  import opened Tracing
  import opened HighWaterMark
  import opened FeeTimelock
  import opened Closing
  import opened Outflow
  import opened Drift
  import opened SpeedLimit
  import opened ForwardPricing
  import opened Payees

  /** Clocks never run ahead: neither the log nor the NAV stamp is later than now. */
  predicate Clocked(m: Machine) {
    InClockOrder(m.log, m.now)
    && NavPostedLast(m.accounts.vault, m.log)
    && 0 <= m.accounts.vault.lastNavTs <= m.now
  }

  /** Every rate, live, pending or configured, is at most 100%. */
  predicate RatesCapped(a: Accounts) {
    LiveRates(a.vault).AtMost(Rates(MAX_BPS, MAX_BPS))
    && PendingRates(a.vault).AtMost(Rates(MAX_BPS, MAX_BPS))
    && a.config.Valid()
  }

  ghost predicate Covered(m: Machine) {
    Solvent(m.accounts) && Mirrored(m.accounts, m.log) && OutflowCovered(m.accounts) && DriftBounded(m.accounts, m.log)
  }

  ghost predicate Accounted(m: Machine) {
    Traced(m.accounts.deposits, m.log, DepositSide)
    && Traced(m.accounts.withdrawals, m.log, WithdrawalSide)
    && Marked(m.accounts.vault, m.log)
    && Timelocked(m.accounts.vault, m.log)
    && Chained(m.log)
    && AllFairlyClosed(m.log)
    && StrategiesCounted(m.accounts)
    && NothingStranded(m.accounts)
    && RatesCapped(m.accounts)
    && FeesTraced(m.accounts.vault, m.log)
    && ClaimsNamed(m.accounts, m.log)
    && OutflowTraced(m.accounts.vault, m.log)
  }

  ghost predicate GoodStanding(m: Machine) {
    Clocked(m) && Covered(m) && Accounted(m)
  }

  lemma NavEpochNotAhead(m: Machine, now: i64)
    requires Clocked(m) && m.now <= now
    ensures m.accounts.vault.navEpoch <= Epoch(now)
  {
    var k := LastPost(m.log);
    EpochMono(if k < 0 then 0 else m.log[k].now, now);
  }

  // One step

  lemma StampNotAhead(a: Accounts, now: i64, ix: Instruction, o: Outcome)
    requires 0 <= a.vault.lastNavTs <= now && Apply(a, now, ix) == Ok(o)
    ensures 0 <= o.accounts.vault.lastNavTs <= now
  {
    if ix.IsRequest() {
      TermsUntouched(a, now, ix, o);
    } else if ix.IsOutside() {
      VaultUntouched(a, now, ix, o);
    } else if ix.IsPost() {
      PostApplied(a, now, ix, o);
      InstructionIsPosted(a, now, ix.totalAssets, ix.BoundOf(a.config), o);
    } else {
      PricesUntouched(a, now, ix, o);
    }
  }

  lemma KeepsClocked(m: Machine, tx: Tx, o: Outcome)
    requires Clocked(m) && m.now <= tx.now && Apply(m.accounts, tx.now, tx.ix) == Ok(o)
    ensures Clocked(Machine(o.accounts, tx.now, m.log + [Entry(tx.now, o.event)]))
  {
    KeepsNavPosted(m.accounts, m.log, tx.now, tx.ix, o);
    StampNotAhead(m.accounts, tx.now, tx.ix, o);
  }

  lemma ConfigStaysValid(a: Accounts, now: i64, ix: Instruction, o: Outcome)
    requires a.config.Valid() && Apply(a, now, ix) == Ok(o)
    ensures o.accounts.config.Valid()
  {
    if ix.IsRequest() {
      TermsUntouched(a, now, ix, o);
    } else if ix.IsOutside() {
      VaultUntouched(a, now, ix, o);
    }
  }

  lemma KeepsRatesCapped(a: Accounts, now: i64, ix: Instruction, o: Outcome)
    requires RatesCapped(a) && Apply(a, now, ix) == Ok(o)
    ensures RatesCapped(o.accounts)
  {
    ConfigStaysValid(a, now, ix, o);
    RatesAfter(a, now, ix, o);
    CappedAfter(a.vault, o.accounts.vault, now, o.event);
  }

  lemma CappedAfter(v: VaultState, v': VaultState, now: i64, e: Event)
    requires LiveRates(v).AtMost(Rates(MAX_BPS, MAX_BPS)) && PendingRates(v).AtMost(Rates(MAX_BPS, MAX_BPS))
    requires RatesStep(v, v', now, e)
    ensures LiveRates(v').AtMost(Rates(MAX_BPS, MAX_BPS))
    ensures PendingRates(v').AtMost(Rates(MAX_BPS, MAX_BPS))
  {
  }

  lemma KeepsCovered(m: Machine, tx: Tx, o: Outcome)
    requires Clocked(m) && Covered(m) && m.now <= tx.now && Apply(m.accounts, tx.now, tx.ix) == Ok(o)
    ensures Covered(Machine(o.accounts, tx.now, m.log + [Entry(tx.now, o.event)]))
  {
    KeepsSolvent(m.accounts, tx.now, tx.ix, o);
    KeepsMirrored(m.accounts, m.log, tx.now, tx.ix, o);
    NavEpochNotAhead(m, tx.now);
    KeepsOutflowCovered(m.accounts, m.log, tx.now, tx.ix, o);
    KeepsDriftBounded(m.accounts, m.log, tx.now, tx.ix, o);
  }

  lemma KeepsAccounted(m: Machine, tx: Tx, o: Outcome)
    requires GoodStanding(m) && m.now <= tx.now && Apply(m.accounts, tx.now, tx.ix) == Ok(o)
    ensures Accounted(Machine(o.accounts, tx.now, m.log + [Entry(tx.now, o.event)]))
  {
    KeepsTraced(m.accounts, m.log, tx.now, tx.ix, o);
    KeepsMarked(m.accounts, m.log, tx.now, tx.ix, o);
    RatesAfter(m.accounts, tx.now, tx.ix, o);
    KeepsTimelocked(m.accounts.vault, o.accounts.vault, m.log, tx.now, o.event);
    KeepsChained(m.accounts, m.log, tx.now, tx.ix, o);
    KeepsFairlyClosed(m.accounts, m.log, m.now, tx.now, tx.ix, o);
    KeepsNothingStranded(m.accounts, m.log, tx.now, tx.ix, o);
    KeepsStrategiesCounted(m.accounts, tx.now, tx.ix, o);
    KeepsRatesCapped(m.accounts, tx.now, tx.ix, o);
    KeepsFeesTraced(m.accounts, m.log, tx.now, tx.ix, o);
    KeepsClaimsNamed(m.accounts, m.log, tx.now, tx.ix, o);
    KeepsOutflowTraced(m.accounts, m.log, tx.now, tx.ix, o);
  }

  lemma StepKeepsStanding(m: Machine, tx: Tx)
    requires GoodStanding(m) && m.now <= tx.now
    ensures GoodStanding(Step(m, tx))
  {
    if Apply(m.accounts, tx.now, tx.ix).Ok? {
      var o := Apply(m.accounts, tx.now, tx.ix).value;
      KeepsClocked(m, tx, o);
      KeepsCovered(m, tx, o);
      KeepsAccounted(m, tx, o);
    }
  }

  // All runs

  lemma StartIsGood(g: Genesis)
    requires g.Valid()
    ensures GoodStanding(g.Start())
  {
    var m := g.Start();
    assert Amounts(m.accounts.deposits) == map[] && Amounts(m.accounts.withdrawals) == map[];
    assert Matured(m.accounts.withdrawals, 0) == map[];
  }

  lemma StepClock(m: Machine, tx: Tx)
    ensures Step(m, tx).now == tx.now
  {
  }

  lemma {:induction false} RunKeepsStanding(m: Machine, txs: seq<Tx>)
    requires GoodStanding(m) && Ordered(m.now, txs)
    ensures GoodStanding(Run(m, txs))
    decreases |txs|
  {
    if txs != [] {
      StepKeepsStanding(m, txs[0]);
      StepClock(m, txs[0]);
      RunKeepsStanding(Step(m, txs[0]), txs[1..]);
    }
  }

  lemma ReachableIsGood(m: Machine)
    requires Reachable(m)
    ensures GoodStanding(m)
  {
    var g, txs :| ReachedBy(m, g, txs);
    StartIsGood(g);
    RunKeepsStanding(g.Start(), txs);
  }
}
