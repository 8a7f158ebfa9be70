/**
 A NAV post at a glance: what it leaves in the vault, without the arithmetic of the fees. The lemmas
 about runs reason from `Posted`; the fee laws (FeeLaws.dfy) reason about the arithmetic.
 */
module Posting {
  import opened Words
  import opened VaultModel
  import opened Protocol

  /** `v'` is `v` after a post of `totalAssets` at `now` that accrued `feeShares`. */
  predicate Posted(v: VaultState, v': VaultState, totalAssets: nat, shareSupply: nat, now: i64, feeShares: NavFeeShares) {
    v'.totalAssets == totalAssets
    && v.navEpoch < Epoch(now)
    && v'.unclaimedManagerFeeShares == v.unclaimedManagerFeeShares + feeShares.managerFeeShares
    && v'.unclaimedPlatformFeeShares == v.unclaimedPlatformFeeShares + feeShares.platformFeeShares
    && (if v.VirtualSupply(shareSupply) == 0 then
          v'.navPerShare == NAV_PRECISION && feeShares == NavFeeShares(0, 0) && v'.highWaterMark == v.highWaterMark
        else
          v'.navPerShare == NavOf(totalAssets, v'.VirtualSupply(shareSupply))
          && v'.highWaterMark == if v'.navPerShare > v.highWaterMark then v'.navPerShare else v.highWaterMark)
    && v' == ApplyPendingFees(v, now).(
      totalAssets := v'.totalAssets, navEpoch := Epoch(now), lastNavTs := now, epochOutflow := 0,
      navPerShare := v'.navPerShare, highWaterMark := v'.highWaterMark,
      unclaimedManagerFeeShares := v'.unclaimedManagerFeeShares, unclaimedPlatformFeeShares := v'.unclaimedPlatformFeeShares)
  }

  lemma DilutionRecorded(v: VaultState, bound: Option<u16>, d: Dilution, v': VaultState, feeShares: NavFeeShares)
    requires RecordDilution(v, bound, d) == Ok((v', feeShares))
    ensures feeShares == NavFeeShares(d.managerShares, d.platformShares)
    ensures v' == v.(
      unclaimedManagerFeeShares := v.unclaimedManagerFeeShares + feeShares.managerFeeShares,
      unclaimedPlatformFeeShares := v.unclaimedPlatformFeeShares + feeShares.platformFeeShares,
      navPerShare := d.navPerShare,
      highWaterMark := if d.navPerShare > v.highWaterMark then d.navPerShare else v.highWaterMark)
    ensures bound.Some? ==> WithinDeviation(v'.navPerShare, v.navPerShare, bound.value)
  {
  }

  lemma PostIsPosted(v: VaultState, args: NavUpdateArgs, post: NavPost)
    requires PostNav(v, args) == Ok(post)
    ensures Posted(v, post.vault, args.totalAssets, args.shareSupply, args.now, post.feeShares)
    ensures 0 < v.VirtualSupply(args.shareSupply) && args.maxNavDeviationBps.Some? ==>
              WithinDeviation(post.vault.navPerShare, v.navPerShare, args.maxNavDeviationBps.value)
  {
    var supply := v.VirtualSupply(args.shareSupply);
    if supply != 0 {
      var (accrued, feeShares) := AccruedFees(v, args).value;
      DilutionRecorded(v, args.maxNavDeviationBps, Dilute(args.totalAssets, supply, FeesDue(v, args)), accrued, feeShares);
    }
  }

  /** The same for the instruction. */
  lemma InstructionIsPosted(a: Accounts, now: i64, totalAssets: u64, bound: Option<u16>, o: Outcome)
    requires Post(a, now, totalAssets, bound) == Ok(o)
    ensures o.event.NavPosted? && o.accounts == a.(vault := o.accounts.vault)
    ensures o.event == NavPosted(totalAssets, o.accounts.vault.navPerShare, o.event.feeShares, a.Supply(), bound)
    ensures Posted(a.vault, o.accounts.vault, totalAssets, a.shareSupply, now, o.event.feeShares)
    ensures 0 < a.Supply() && bound.Some? ==>
              WithinDeviation(o.accounts.vault.navPerShare, a.vault.navPerShare, bound.value)
  {
    PostIsPosted(a.vault, PostArgs(a, now, totalAssets, bound), PostNav(a.vault, PostArgs(a, now, totalAssets, bound)).value);
  }
}
