/**
 Fee rates and the arguments that asked for them. The latest pair, which is the pending one if there is one and
 the live one otherwise, is at any time what managers last asked for, each rate on its own: a rate left out of a
 request stays as it was last asked for.
 */
module RateRequests {
  import opened Words
  import opened VaultModel
  import opened Protocol
  import opened Runs
  import opened Frames
  import opened Posting

  function LatestPerformance(v: VaultState): u16 {
    if v.feeEffectiveTs != 0 then v.pendingPerformanceFeeBps else v.performanceFeeBps
  }

  function LatestManagement(v: VaultState): u16 {
    if v.feeEffectiveTs != 0 then v.pendingManagementFeeBps else v.managementFeeBps
  }

  /** A request moves the rates that it names, and no other, and leaves the request in the log. */
  lemma UpdateAsksForArguments(a: Accounts, now: i64, args: VaultUpdateArgs, o: Outcome)
    requires 0 <= now && args.TouchesFees() && Apply(a, now, VaultUpdate(args)) == Ok(o)
    ensures var v, v' := a.vault, o.accounts.vault;
      (match args.performanceFeeBps
       case Some(asked) => LatestPerformance(v') == asked
       case None => LatestPerformance(v') == LatestPerformance(v))
      && (match args.managementFeeBps
          case Some(asked) => LatestManagement(v') == asked
          case None => LatestManagement(v') == LatestManagement(v))
      && o.event == FeesUpdated(Rates(LatestPerformance(v'), LatestManagement(v')))
  {
  }

  /** What a request leaves live: the requested pair at once if neither rate rises, and else what was live before. */
  lemma UpdateOnlyLowers(a: Accounts, now: i64, args: VaultUpdateArgs, o: Outcome)
    requires 0 <= now && args.TouchesFees() && Apply(a, now, VaultUpdate(args)) == Ok(o)
    ensures var v, v' := a.vault, o.accounts.vault;
      if LatestPerformance(v') <= v.performanceFeeBps && LatestManagement(v') <= v.managementFeeBps
      then v'.feeEffectiveTs == 0 && v'.performanceFeeBps == LatestPerformance(v') && v'.managementFeeBps == LatestManagement(v')
      else v'.feeEffectiveTs == now + FEE_INCREASE_DELAY
           && v'.performanceFeeBps == v.performanceFeeBps && v'.managementFeeBps == v.managementFeeBps
  {
  }

  /** Nothing else moves the latest pair, not even the post that makes it live. */
  lemma LatestStays(a: Accounts, now: i64, ix: Instruction, o: Outcome)
    requires (ix.VaultUpdate? ==> !ix.args.TouchesFees()) && Apply(a, now, ix) == Ok(o)
    ensures LatestPerformance(o.accounts.vault) == LatestPerformance(a.vault)
    ensures LatestManagement(o.accounts.vault) == LatestManagement(a.vault)
  {
    if ix.IsRequest() {
      TermsUntouched(a, now, ix, o);
    } else if ix.IsOutside() {
      VaultUntouched(a, now, ix, o);
    } else if ix.IsPost() {
      PostApplied(a, now, ix, o);
      InstructionIsPosted(a, now, ix.totalAssets, ix.BoundOf(a.config), o);
    } else {
      ScheduleStays(a, now, ix, o);
    }
  }

  lemma ScheduleStays(a: Accounts, now: i64, ix: Instruction, o: Outcome)
    requires !ix.IsRequest() && !ix.IsOutside() && !ix.IsPost() && (ix.VaultUpdate? ==> !ix.args.TouchesFees())
    requires Apply(a, now, ix) == Ok(o)
    ensures var v, v' := a.vault, o.accounts.vault;
      v'.feeEffectiveTs == v.feeEffectiveTs
      && v'.performanceFeeBps == v.performanceFeeBps && v'.managementFeeBps == v.managementFeeBps
      && v'.pendingPerformanceFeeBps == v.pendingPerformanceFeeBps && v'.pendingManagementFeeBps == v.pendingManagementFeeBps
  {
  }

  // Over runs

  /** The arguments of a request that went through. */
  function Asked(m: Machine, tx: Tx): (Option<u16>, Option<u16>) {
    match tx.ix
    case VaultUpdate(args) =>
      if Apply(m.accounts, tx.now, tx.ix).Ok? then (args.performanceFeeBps, args.managementFeeBps) else (None, None)
    case _ => (None, None)
  }

  /** The performance rate last asked for in a run, or `before` if none was. */
  function LastPerformanceAsked(m: Machine, txs: seq<Tx>, before: u16): u16
    decreases |txs|
  {
    if txs == [] then before else
      var asked := Asked(m, txs[0]).0;
      LastPerformanceAsked(Step(m, txs[0]), txs[1..], if asked.Some? then asked.value else before)
  }

  function LastManagementAsked(m: Machine, txs: seq<Tx>, before: u16): u16
    decreases |txs|
  {
    if txs == [] then before else
      var asked := Asked(m, txs[0]).1;
      LastManagementAsked(Step(m, txs[0]), txs[1..], if asked.Some? then asked.value else before)
  }

  lemma StepAsks(m: Machine, tx: Tx)
    requires 0 <= tx.now
    ensures var v, v' := m.accounts.vault, Step(m, tx).accounts.vault;
      var (performance, management) := Asked(m, tx);
      LatestPerformance(v') == (if performance.Some? then performance.value else LatestPerformance(v))
      && LatestManagement(v') == (if management.Some? then management.value else LatestManagement(v))
  {
    var r := Apply(m.accounts, tx.now, tx.ix);
    if r.Ok? {
      if tx.ix.VaultUpdate? && tx.ix.args.TouchesFees() {
        UpdateAsksForArguments(m.accounts, tx.now, tx.ix.args, r.value);
      } else {
        LatestStays(m.accounts, tx.now, tx.ix, r.value);
      }
    }
  }

  lemma {:induction false} RunAsks(m: Machine, txs: seq<Tx>)
    requires 0 <= m.now && Ordered(m.now, txs)
    ensures var v, v' := m.accounts.vault, Run(m, txs).accounts.vault;
      LatestPerformance(v') == LastPerformanceAsked(m, txs, LatestPerformance(v))
      && LatestManagement(v') == LastManagementAsked(m, txs, LatestManagement(v))
    decreases |txs|
  {
    if txs != [] {
      StepAsks(m, txs[0]);
      RunAsks(Step(m, txs[0]), txs[1..]);
    }
  }

  /**
   From the opening of the vault on: its rates are the ones it opened with until others are asked for, and a
   pending pair is made of the last performance and the last management rate that were.
   */
  lemma {:induction false} RatesAreAsked(m: Machine, g: Genesis, txs: seq<Tx>)
    requires ReachedBy(m, g, txs)
    ensures var performance := LastPerformanceAsked(g.Start(), txs, g.vault.performanceFeeBps);
      var management := LastManagementAsked(g.Start(), txs, g.vault.managementFeeBps);
      if m.accounts.vault.feeEffectiveTs != 0
      then PendingRates(m.accounts.vault) == Rates(performance, management)
      else LiveRates(m.accounts.vault) == Rates(performance, management)
  {
    RunAsks(g.Start(), txs);
  }
}
