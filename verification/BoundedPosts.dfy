/**
 The deviation bound of `nav_update` as a property of transactions. An update goes through exactly if the same
 post would go through as an override and moves NAV by no more than the configured share of it; and over runs
 whose posts are all updates, NAV moves no faster than the bound compounded per epoch.
 */
module BoundedPosts {
  import opened Words
  import opened Arithmetic
  import opened VaultModel
  import opened Protocol
  import opened Runs
  import opened Frames
  import opened Posting
  import opened SpeedLimit

  /** NAV moves by at most `bps` basis points of what it was. */
  predicate MovesWithin(nav: nat, nav': nat, bps: nat) {
    (nav' - nav) * MAX_BPS <= nav * bps && (nav - nav') * MAX_BPS <= nav * bps
  }

  lemma DeviationCleared(nav: nat, nav': nat, bps: nat)
    ensures WithinDeviation(nav', nav, bps) <==> MovesWithin(nav, nav', bps)
  {
    var moved := AbsDiff(nav', nav);
    MulNat(nav, bps);
    Floor(nav * bps, MAX_BPS);
    if moved <= nav * bps / MAX_BPS {
      MulMono(moved, nav * bps / MAX_BPS, MAX_BPS);
    } else {
      MulMono(nav * bps / MAX_BPS + 1, moved, MAX_BPS);
    }
  }

  // One post

  /** The deviation bound decides nothing but whether the dilution is recorded. */
  lemma RecordedWithin(v: VaultState, bound: u16, d: Dilution)
    ensures var free := RecordDilution(v, None, d);
      RecordDilution(v, Some(bound), d).Ok? <==> free.Ok? && MovesWithin(v.navPerShare, d.navPerShare, bound)
    ensures RecordDilution(v, Some(bound), d).Ok? ==> RecordDilution(v, Some(bound), d) == RecordDilution(v, None, d)
    ensures RecordDilution(v, None, d).Ok? ==> RecordDilution(v, None, d).value.0.navPerShare == d.navPerShare
  {
    DeviationCleared(v.navPerShare, d.navPerShare, bound);
  }

  lemma AccruedWithin(v: VaultState, args: NavUpdateArgs, bound: u16)
    requires 0 < v.VirtualSupply(args.shareSupply) && args.maxNavDeviationBps == None
    ensures var bounded, free := AccruedFees(v, args.(maxNavDeviationBps := Some(bound))), AccruedFees(v, args);
      (bounded.Ok? <==> free.Ok? && MovesWithin(v.navPerShare, free.value.0.navPerShare, bound))
      && (bounded.Ok? ==> bounded == free)
  {
    var bounded := args.(maxNavDeviationBps := Some(bound));
    assert FeesDue(v, bounded) == FeesDue(v, args);
    var fees := FeesDue(v, args);
    if fees.Total() == 0 || fees.Total() < args.totalAssets {
      RecordedWithin(v, bound, Dilute(args.totalAssets, v.VirtualSupply(args.shareSupply), fees));
    }
  }

  lemma PostedWithin(v: VaultState, args: NavUpdateArgs, bound: u16)
    requires args.maxNavDeviationBps == None
    ensures var bounded, free := PostNav(v, args.(maxNavDeviationBps := Some(bound))), PostNav(v, args);
      (bounded.Ok? <==>
         free.Ok? && (v.VirtualSupply(args.shareSupply) == 0 || MovesWithin(v.navPerShare, free.value.vault.navPerShare, bound)))
      && (bounded.Ok? ==> bounded == free)
  {
    if 0 < v.VirtualSupply(args.shareSupply) { AccruedWithin(v, args, bound); }
  }

  /**
   An update succeeds exactly if the override would, and, with shares outstanding, would leave NAV within the
   configured bound; the two then leave the same accounts.
   */
  lemma UpdateIsBoundedOverride(a: Accounts, now: i64, totalAssets: u64)
    ensures var update, free := Apply(a, now, NavUpdate(totalAssets)), Apply(a, now, NavOverride(totalAssets));
      (update.Ok? <==>
         free.Ok? && (a.Supply() == 0
                      || MovesWithin(a.vault.navPerShare, free.value.accounts.vault.navPerShare, a.config.maxNavDeviationBps)))
      && (update.Ok? ==> update.value.accounts == free.value.accounts)
  {
    PostedWithin(a.vault, PostArgs(a, now, totalAssets, None), a.config.maxNavDeviationBps);
  }

  /** In a run: an update that goes through with shares outstanding has kept NAV within the configured bound. */
  lemma UpdateIsBounded(m: Machine, tx: Tx)
    requires tx.ix.NavUpdate? && Apply(m.accounts, tx.now, tx.ix).Ok? && 0 < m.accounts.Supply()
    ensures var nav, nav' := m.accounts.vault.navPerShare, Step(m, tx).accounts.vault.navPerShare;
      (nav' - nav) * 10_000 <= nav * m.accounts.config.maxNavDeviationBps
      && (nav - nav') * 10_000 <= nav * m.accounts.config.maxNavDeviationBps
  {
    UpdateIsBoundedOverride(m.accounts, tx.now, tx.ix.totalAssets);
  }

  // Runs of updates

  /** Every post of the run is an update, with shares outstanding and a configured bound of at most `bps`. */
  predicate UpdatesWithin(m: Machine, txs: seq<Tx>, bps: nat)
    decreases |txs|
  {
    txs != [] ==>
      (txs[0].ix.IsPost() ==>
         txs[0].ix.NavUpdate? && 0 < m.accounts.Supply() && m.accounts.config.maxNavDeviationBps <= bps)
      && UpdatesWithin(Step(m, txs[0]), txs[1..], bps)
  }

  /** Between two states: NAV has moved by at most the bound for each of `epochs` epochs. */
  predicate WithinEpochs(nav: nat, nav': nat, epochs: nat, bps: nat)
    requires bps <= MAX_BPS
  {
    nav * Pow(MAX_BPS - bps, epochs) <= nav' * Pow(MAX_BPS, epochs) <= nav * Pow(MAX_BPS + bps, epochs)
  }

  /** From `v` to `v'`, over the NAV epochs between them. */
  predicate Slow(v: VaultState, v': VaultState, bps: nat)
    requires bps <= MAX_BPS
  {
    v.navEpoch <= v'.navEpoch && WithinEpochs(v.navPerShare, v'.navPerShare, v'.navEpoch - v.navEpoch, bps)
  }

  lemma BoundInFactors(nav: nat, nav': nat, bound: nat, bps: nat)
    requires MovesWithin(nav, nav', bound) && bound <= bps <= MAX_BPS
    ensures nav * (MAX_BPS - bps) <= nav' * MAX_BPS <= nav * (MAX_BPS + bps)
  {
    DeviationCleared(nav, nav', bound);
    OneStep(nav, nav', bound, bps);
  }

  lemma {:induction false} StepWithinEpochs(m: Machine, tx: Tx, bps: nat)
    requires UpdatesWithin(m, [tx], bps) && bps <= MAX_BPS
    ensures Slow(m.accounts.vault, Step(m, tx).accounts.vault, bps)
  {
    var r := Apply(m.accounts, tx.now, tx.ix);
    if r.Ok? && tx.ix.IsPost() {
      UpdateIsBounded(m, tx);
      PostApplied(m.accounts, tx.now, tx.ix, r.value);
      InstructionIsPosted(m.accounts, tx.now, tx.ix.totalAssets, tx.ix.BoundOf(m.accounts.config), r.value);
      var v, v' := m.accounts.vault, Step(m, tx).accounts.vault;
      BoundInFactors(v.navPerShare, v'.navPerShare, m.accounts.config.maxNavDeviationBps, bps);
      RatioUp(v.navPerShare, v'.navPerShare, MAX_BPS - bps, MAX_BPS, v'.navEpoch - v.navEpoch);
      RatioUp(v'.navPerShare, v.navPerShare, MAX_BPS, MAX_BPS + bps, v'.navEpoch - v.navEpoch);
    } else if r.Ok? {
      PriceStays(m.accounts, tx.now, tx.ix, r.value);
    }
  }

  lemma PriceStays(a: Accounts, now: i64, ix: Instruction, o: Outcome)
    requires !ix.IsPost() && Apply(a, now, ix) == Ok(o)
    ensures o.accounts.vault.navPerShare == a.vault.navPerShare && o.accounts.vault.navEpoch == a.vault.navEpoch
  {
    if ix.IsRequest() {
      TermsUntouched(a, now, ix, o);
    } else if ix.IsOutside() {
      VaultUntouched(a, now, ix, o);
    } else {
      PricesUntouched(a, now, ix, o);
    }
  }

  /** Over a run whose posts are all updates, NAV moves no faster than the bound compounded over the epochs gone by. */
  lemma {:induction false} UpdatesAreSlow(m: Machine, txs: seq<Tx>, bps: nat)
    requires UpdatesWithin(m, txs, bps) && bps <= MAX_BPS
    ensures Slow(m.accounts.vault, Run(m, txs).accounts.vault, bps)
    decreases |txs|
  {
    if txs == [] {
      NoEpochs(m.accounts.vault.navPerShare, bps);
    } else {
      FirstWithin(m, txs, bps);
      StepWithinEpochs(m, txs[0], bps);
      UpdatesAreSlow(Step(m, txs[0]), txs[1..], bps);
      SlowChain(m.accounts.vault, Step(m, txs[0]).accounts.vault, Run(Step(m, txs[0]), txs[1..]).accounts.vault, bps);
    }
  }

  lemma NoEpochs(nav: nat, bps: nat)
    requires bps <= MAX_BPS
    ensures WithinEpochs(nav, nav, 0, bps)
  {
  }

  lemma SlowChain(v: VaultState, mid: VaultState, v': VaultState, bps: nat)
    requires bps <= MAX_BPS && Slow(v, mid, bps) && Slow(mid, v', bps)
    ensures Slow(v, v', bps)
  {
    EpochsChain(v.navPerShare, mid.navPerShare, v'.navPerShare, mid.navEpoch - v.navEpoch, v'.navEpoch - mid.navEpoch, bps);
  }

  lemma EpochsChain(nav: nat, mid: nat, nav': nat, d: nat, d': nat, bps: nat)
    requires bps <= MAX_BPS && WithinEpochs(nav, mid, d, bps) && WithinEpochs(mid, nav', d', bps)
    ensures WithinEpochs(nav, nav', d + d', bps)
  {
    RatioChain(nav, mid, nav', MAX_BPS - bps, MAX_BPS, d, d');
    RatioChain(nav', mid, nav, MAX_BPS, MAX_BPS + bps, d', d);
  }

  lemma {:induction false} FirstWithin(m: Machine, txs: seq<Tx>, bps: nat)
    requires txs != [] && UpdatesWithin(m, txs, bps)
    ensures UpdatesWithin(m, [txs[0]], bps)
  {
    assert [txs[0]][1..] == [];
  }
}
