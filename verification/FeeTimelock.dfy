/**
 The fee timelock over whole runs. A live rate rises only inside a NAV post, at least the delay after
 the latest fee update, and to exactly the pair that this update asked for.
 */
module FeeTimelock {
  import opened Words
  import opened VaultModel
  import opened Protocol
  import opened Runs
  import opened Frames
  import opened Posting

  /** A pending pair is the one the latest fee update asked for, and exceeds the live pair in some rate. */
  predicate Timelocked(v: VaultState, log: Log) {
    v.feeEffectiveTs != 0 ==>
      var k := LastFeeUpdate(log);
      0 <= k
      && v.feeEffectiveTs == log[k].now + FEE_INCREASE_DELAY
      && PendingRates(v) == log[k].event.requested
      && !PendingRates(v).AtMost(LiveRates(v))
  }

  /** How the rates and the pending pair move, told from the event. */
  predicate RatesStep(v: VaultState, v': VaultState, now: i64, e: Event) {
    match e
    case NavPosted(_, _, _, _, _) =>
      LiveRates(v') == LiveRates(ApplyPendingFees(v, now))
      && PendingRates(v') == PendingRates(ApplyPendingFees(v, now))
      && v'.feeEffectiveTs == ApplyPendingFees(v, now).feeEffectiveTs
    case FeesUpdated(requested) =>
      requested.performance <= MAX_BPS && requested.management <= MAX_BPS &&
      if requested.AtMost(LiveRates(v))
      then LiveRates(v') == requested && PendingRates(v') == Rates(0, 0) && v'.feeEffectiveTs == 0
      else LiveRates(v') == LiveRates(v) && PendingRates(v') == requested && v'.feeEffectiveTs == now + FEE_INCREASE_DELAY
    case _ =>
      LiveRates(v') == LiveRates(v) && PendingRates(v') == PendingRates(v) && v'.feeEffectiveTs == v.feeEffectiveTs
  }

  lemma RatesAfterUpdate(a: Accounts, now: i64, ix: Instruction, o: Outcome)
    requires !ix.IsRequest() && !ix.IsOutside() && !ix.IsPost() && Apply(a, now, ix) == Ok(o)
    ensures RatesStep(a.vault, o.accounts.vault, now, o.event)
  {
  }

  lemma RatesAfter(a: Accounts, now: i64, ix: Instruction, o: Outcome)
    requires Apply(a, now, ix) == Ok(o)
    ensures RatesStep(a.vault, o.accounts.vault, now, o.event)
  {
    if ix.IsRequest() {
      TermsUntouched(a, now, ix, o);
    } else if ix.IsOutside() {
      VaultUntouched(a, now, ix, o);
    } else if ix.IsPost() {
      PostApplied(a, now, ix, o);
      InstructionIsPosted(a, now, ix.totalAssets, ix.BoundOf(a.config), o);
    } else {
      RatesAfterUpdate(a, now, ix, o);
    }
  }

  lemma KeepsTimelocked(v: VaultState, v': VaultState, log: Log, now: i64, e: Event)
    requires Timelocked(v, log) && 0 <= now && RatesStep(v, v', now, e)
    ensures Timelocked(v', log + [Entry(now, e)])
  {
    Appended(log, Entry(now, e));
  }

  /** The step that raises a rate is a post, at the right time and to the right pair. */
  lemma {:induction false} RateRise(v: VaultState, v': VaultState, log: Log, now: i64, e: Event)
    requires Timelocked(v, log) && RatesStep(v, v', now, e)
    requires !LiveRates(v').AtMost(LiveRates(v))
    ensures e.NavPosted?
    ensures var k := LastFeeUpdate(log);
      0 <= k && log[k].now + FEE_INCREASE_DELAY <= now && LiveRates(v') == log[k].event.requested
  {
  }

  /** The vault with its pending pair forgotten. */
  function Unscheduled(v: VaultState): VaultState {
    v.(feeEffectiveTs := 0, pendingPerformanceFeeBps := 0, pendingManagementFeeBps := 0)
  }

  lemma FeesIgnorePending(v: VaultState, args: NavUpdateArgs)
    requires 0 < v.VirtualSupply(args.shareSupply)
    ensures FeesDue(Unscheduled(v), args) == FeesDue(v, args)
    ensures Elapsed(Unscheduled(v), args.now) == Elapsed(v, args.now)
  {
  }

  lemma RecordIgnoresPending(v: VaultState, bound: Option<u16>, d: Dilution)
    ensures match RecordDilution(v, bound, d)
      case Ok((v', feeShares)) => RecordDilution(Unscheduled(v), bound, d) == Ok((Unscheduled(v'), feeShares))
      case Err(e) => RecordDilution(Unscheduled(v), bound, d) == Err(e)
  {
  }

  lemma ChargeIgnoresPending(v: VaultState, args: NavUpdateArgs, fees: Fees)
    requires 0 < v.VirtualSupply(args.shareSupply)
    ensures match Accrue(v, args, fees)
      case Ok((v', feeShares)) => Accrue(Unscheduled(v), args, fees) == Ok((Unscheduled(v'), feeShares))
      case Err(e) => Accrue(Unscheduled(v), args, fees) == Err(e)
  {
    if fees.Total() == 0 || fees.Total() < args.totalAssets {
      RecordIgnoresPending(v, args.maxNavDeviationBps, Dilute(args.totalAssets, v.VirtualSupply(args.shareSupply), fees));
    }
  }

  lemma AccrualIgnoresPending(v: VaultState, args: NavUpdateArgs)
    requires 0 < v.VirtualSupply(args.shareSupply)
    ensures match AccruedFees(v, args)
      case Ok((v', feeShares)) => AccruedFees(Unscheduled(v), args) == Ok((Unscheduled(v'), feeShares))
      case Err(e) => AccruedFees(Unscheduled(v), args) == Err(e)
  {
    FeesIgnorePending(v, args);
    ChargeIgnoresPending(v, args, FeesDue(v, args));
  }

  /** The post that makes a pending pair live still charges the old rates: the pending pair has no part in the charge. */
  lemma PostChargesOldRates(v: VaultState, args: NavUpdateArgs)
    ensures match PostNav(v, args)
      case Ok(post) => PostNav(Unscheduled(v), args).Ok?
                       && post.feeShares == PostNav(Unscheduled(v), args).value.feeShares
                       && post.vault.navPerShare == PostNav(Unscheduled(v), args).value.vault.navPerShare
      case Err(e) => PostNav(Unscheduled(v), args) == Err(e)
  {
    if 0 < v.VirtualSupply(args.shareSupply) {
      AccrualIgnoresPending(v, args);
    }
  }
}
