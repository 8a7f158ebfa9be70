/**
 The arithmetic of a NAV post: fees paid as dilution are fair to both sides up to rounding, and no
 product overflows.
 */
module FeeLaws {
  import opened Words
  import opened Arithmetic
  import opened VaultModel

  /** The fee shares of one payee, cleared of their floor: `shares * net + rest == fee * supply`. */
  lemma ShareFloor(fee: nat, supply: nat, net: nat) returns (rest: nat)
    requires 0 < net
    ensures rest < net && FeeShares(fee, supply, net) * net + rest == fee * supply
    ensures 0 <= FeeShares(fee, supply, net)
  {
    MulNat(fee, supply);
    Floor(fee * supply, net);
    rest := fee * supply - fee * supply / net * net;
  }

  /** With net assets N = T - F, supply S and fee shares f, both gaps equal the two floors' rests. */
  lemma DilutionGap(totalAssets: nat, supply: nat, fees: Fees) returns (managerRest: nat, platformRest: nat)
    requires 0 < supply && 0 < fees.Total() < totalAssets
    ensures var net := totalAssets - fees.Total();
      managerRest < net && platformRest < net
      && FeeShares(fees.manager, supply, net) * net + managerRest == fees.manager * supply
      && FeeShares(fees.platform, supply, net) * net + platformRest == fees.platform * supply
    ensures var d := Dilute(totalAssets, supply, fees);
      fees.Total() * d.supply - (d.managerShares + d.platformShares) * totalAssets == managerRest + platformRest
    ensures var d := Dilute(totalAssets, supply, fees);
      supply * totalAssets - (totalAssets - fees.Total()) * d.supply == managerRest + platformRest
  {
    var net := totalAssets - fees.Total();
    managerRest := ShareFloor(fees.manager, supply, net);
    platformRest := ShareFloor(fees.platform, supply, net);
    GapAlgebra(supply, net, fees.manager, fees.platform, FeeShares(fees.manager, supply, net),
               FeeShares(fees.platform, supply, net), managerRest, platformRest);
  }

  lemma GapAlgebra(supply: int, net: int, manager: int, platform: int, managerShares: int, platformShares: int,
                   managerRest: int, platformRest: int)
    requires managerShares * net + managerRest == manager * supply
    requires platformShares * net + platformRest == platform * supply
    ensures var fee, f := manager + platform, managerShares + platformShares;
      fee * (supply + f) - f * (net + fee) == managerRest + platformRest
      && supply * (net + fee) - net * (supply + f) == managerRest + platformRest
  {
    var fee, f := manager + platform, managerShares + platformShares;
    assert fee * supply == manager * supply + platform * supply;
    assert f * net == managerShares * net + platformShares * net;
    assert fee * (supply + f) == fee * supply + fee * f;
    assert f * (net + fee) == f * net + f * fee;
    assert supply * (net + fee) == supply * net + supply * fee;
    assert net * (supply + f) == net * supply + net * f;
  }

  /**
   Fair in both directions. The fee shares are worth at most the fee, and short of it by less than two
   units per net asset; and what the old holders keep is worth at least the net assets.
   */
  lemma DilutionFair(totalAssets: nat, supply: nat, fees: Fees)
    requires 0 < supply && 0 < fees.Total() < totalAssets
    ensures var d := Dilute(totalAssets, supply, fees);
      0 <= fees.Total() * d.supply - (d.managerShares + d.platformShares) * totalAssets
        <= 2 * (totalAssets - fees.Total() - 1)
    ensures var d := Dilute(totalAssets, supply, fees);
      (totalAssets - fees.Total()) * d.supply <= supply * totalAssets
  {
    var _, _ := DilutionGap(totalAssets, supply, fees);
  }

  /** At the unrounded ratio of assets to supply, fee shares are worth exactly the fee if both share quotients are even. */
  lemma ExactRatioIfEven(totalAssets: nat, supply: nat, fees: Fees)
    requires 0 < supply && 0 < fees.Total() < totalAssets
    ensures var d, net := Dilute(totalAssets, supply, fees), totalAssets - fees.Total();
      (d.managerShares + d.platformShares) * totalAssets == fees.Total() * d.supply
      <==> fees.manager * supply % net == 0 && fees.platform * supply % net == 0
  {
    var managerRest, platformRest := DilutionGap(totalAssets, supply, fees);
    var net := totalAssets - fees.Total();
    RestIsRemainder(fees.manager * supply, net, FeeShares(fees.manager, supply, net), managerRest);
    RestIsRemainder(fees.platform * supply, net, FeeShares(fees.platform, supply, net), platformRest);
  }

  /**
   "Worth exactly the fee at the new NAV": what the fee shares redeem for at the recorded NAV, which is a
   floor, is the fee if and only if both share quotients and the NAV quotient come out even.
   */
  lemma WorthExactlyIfEven(totalAssets: nat, supply: nat, fees: Fees)
    requires 0 < supply && 0 < fees.Total() < totalAssets
    ensures var d, net := Dilute(totalAssets, supply, fees), totalAssets - fees.Total();
      var f := d.managerShares + d.platformShares;
      (f * d.navPerShare == fees.Total() * NAV_PRECISION <==>
         fees.manager * supply % net == 0 && fees.platform * supply % net == 0
         && totalAssets * NAV_PRECISION % d.supply == 0)
      && (PayoutFor(f, d.navPerShare) == fees.Total() <==> f * d.navPerShare == fees.Total() * NAV_PRECISION)
      && PayoutFor(f, d.navPerShare) <= fees.Total()
  {
    var d := Dilute(totalAssets, supply, fees);
    var f := d.managerShares + d.platformShares;
    ExactRatioIfEven(totalAssets, supply, fees);
    DilutionFair(totalAssets, supply, fees);
    DilutionKeeps(totalAssets, supply, fees);
    Floor(totalAssets * NAV_PRECISION, d.supply);
    var rest := totalAssets * NAV_PRECISION - d.navPerShare * d.supply;
    RestIsRemainder(totalAssets * NAV_PRECISION, d.supply, d.navPerShare, rest);
    WorthAtNav(totalAssets, fees.Total(), f, d.supply, d.navPerShare, rest);
  }

  /** An unbounded post of 1010 assets for 700 shares that owes the manager 10. */
  predicate OwesTen(v: VaultState, args: NavUpdateArgs) {
    args.totalAssets == 1010 && args.maxNavDeviationBps == None
    && v.navEpoch < Epoch(args.now) && v.VirtualSupply(args.shareSupply) == 700
    && FeeProductFits(args.totalAssets, v.managementFeeBps, Elapsed(v, args.now))
    && FeeProductFits(args.totalAssets, args.platformManagementFeeBps, Elapsed(v, args.now))
    && FeesDue(v, args) == Fees(10, 0)
  }

  lemma EvenDilution(totalAssets: nat, supply: nat, fees: Fees)
    requires totalAssets == 1010 && supply == 700 && fees == Fees(10, 0)
    ensures Dilute(totalAssets, supply, fees) == Dilution(7, 0, 707, 1428571428)
  {
    FloorIs(fees.manager * supply, totalAssets - fees.Total(), 7);
    FloorIs(totalAssets * NAV_PRECISION, 707, 1428571428);
  }

  /** Both share quotients are even, and still the 7 fee shares redeem for 9 where the fee was 10. */
  lemma FeeNotWorthExactly(v: VaultState, args: NavUpdateArgs)
    requires OwesTen(v, args)
    ensures PostNav(v, args).Ok? && PostNav(v, args).value.feeShares == NavFeeShares(7, 0)
    ensures PostNav(v, args).value.vault.navPerShare == 1428571428
    ensures PayoutFor(7, PostNav(v, args).value.vault.navPerShare) == 9
  {
    EvenDilution(args.totalAssets, v.VirtualSupply(args.shareSupply), FeesDue(v, args));
  }

  lemma WorthAtNav(totalAssets: nat, fee: nat, f: nat, newSupply: nat, nav: nat, rest: nat)
    requires 0 < fee && 0 < newSupply && nav * newSupply + rest == totalAssets * NAV_PRECISION
    requires f * totalAssets <= fee * newSupply
    ensures f * nav == fee * NAV_PRECISION <==> f * totalAssets == fee * newSupply && rest == 0
    ensures PayoutFor(f, nav) == fee <==> f * nav == fee * NAV_PRECISION
    ensures PayoutFor(f, nav) <= fee
  {
    var gap := fee * newSupply - f * totalAssets;
    MissingWorth(totalAssets, fee, f, newSupply, nav, rest);
    if f == 0 { MulMono2(1, fee, 1, newSupply); }
    NothingMissing(fee * NAV_PRECISION - f * nav, newSupply, gap, f, rest);
    PayoutAtMost(f, nav, fee);
  }

  /** What is missing from the worth of the fee shares is what the two roundings took. */
  lemma MissingWorth(totalAssets: int, fee: int, f: int, newSupply: int, nav: int, rest: int)
    requires nav * newSupply + rest == totalAssets * NAV_PRECISION
    ensures (fee * NAV_PRECISION - f * nav) * newSupply == (fee * newSupply - f * totalAssets) * NAV_PRECISION + f * rest
  {
    calc {
      (fee * NAV_PRECISION - f * nav) * newSupply;
      fee * NAV_PRECISION * newSupply - f * nav * newSupply;
      fee * newSupply * NAV_PRECISION - f * (nav * newSupply);
      fee * newSupply * NAV_PRECISION - f * (totalAssets * NAV_PRECISION - rest);
      fee * newSupply * NAV_PRECISION - f * totalAssets * NAV_PRECISION + f * rest;
      (fee * newSupply - f * totalAssets) * NAV_PRECISION + f * rest;
    }
  }

  lemma NothingMissing(missing: int, newSupply: nat, gap: nat, f: nat, rest: nat)
    requires 0 < newSupply && missing * newSupply == gap * NAV_PRECISION + f * rest
    requires f == 0 ==> 0 < gap
    ensures 0 <= missing && (missing == 0 <==> gap == 0 && rest == 0)
  {
    MulNat(f, rest);
    if missing < 0 { MulMono(missing, -1, newSupply); }
    if 0 < missing { MulMono(1, missing, newSupply); }
    if 0 < f && 0 < rest { MulMono(1, f, rest); }
  }

  lemma PayoutAtMost(shares: nat, nav: nat, fee: nat)
    requires shares * nav <= fee * NAV_PRECISION
    ensures PayoutFor(shares, nav) <= fee
    ensures PayoutFor(shares, nav) == fee <==> shares * nav == fee * NAV_PRECISION
  {
    MulNat(shares, nav);
    Floor(shares * nav, NAV_PRECISION);
  }

  lemma RestIsRemainder(a: nat, b: nat, q: nat, rest: nat)
    requires rest < b && q * b + rest == a
    ensures a % b == rest
  {
    FloorIs(a, b, q);
  }

  /** Each payee alone gets less than its fee times (S'+1)/S'. */
  lemma PayeeBounded(totalAssets: nat, supply: nat, fees: Fees)
    requires 0 < supply && 0 < fees.Total() < totalAssets
    ensures var d := Dilute(totalAssets, supply, fees);
      0 < fees.manager ==> d.managerShares * totalAssets < fees.manager * (d.supply + 1)
    ensures var d := Dilute(totalAssets, supply, fees);
      0 < fees.platform ==> d.platformShares * totalAssets < fees.platform * (d.supply + 1)
  {
    var managerRest, platformRest := DilutionGap(totalAssets, supply, fees);
    var d := Dilute(totalAssets, supply, fees);
    var net := totalAssets - fees.Total();
    OnePayee(net, supply, fees.manager, fees.platform, d.managerShares, d.supply, managerRest, platformRest);
    OnePayee(net, supply, fees.platform, fees.manager, d.platformShares, d.supply, platformRest, managerRest);
  }

  /** shares * T * N, expanded with shares * N = fee * S - rest and S * T = N * S' + rest + otherRest. */
  lemma PayeeWorth(totalAssets: int, supply: int, net: int, fee: int, shares: int, newSupply: int, rest: int, otherRest: int)
    requires shares * net + rest == fee * supply
    requires supply * totalAssets == net * newSupply + rest + otherRest
    ensures shares * totalAssets * net == fee * newSupply * net + fee * (rest + otherRest) - rest * totalAssets
  {
    calc {
      shares * totalAssets * net;
      (shares * net) * totalAssets;
      (fee * supply - rest) * totalAssets;
      (fee * supply) * totalAssets - rest * totalAssets;
      fee * (supply * totalAssets) - rest * totalAssets;
      fee * (net * newSupply + (rest + otherRest)) - rest * totalAssets;
      fee * (net * newSupply) + fee * (rest + otherRest) - rest * totalAssets;
      fee * newSupply * net + fee * (rest + otherRest) - rest * totalAssets;
    }
  }

  /** What the payee's own rest takes away outweighs what it adds, so only the other's rest remains. */
  lemma RestsCancel(net: nat, fee: nat, other: nat, rest: nat, otherRest: nat)
    requires otherRest < net && 0 < fee
    ensures fee * (rest + otherRest) - rest * (net + fee + other) < fee * net
  {
    MulNat(rest, net + other);
    MulMono(otherRest + 1, net, fee);
    assert fee * (rest + otherRest) == rest * fee + fee * otherRest;
    assert rest * (net + fee + other) == rest * (net + other) + rest * fee;
    assert (otherRest + 1) * fee == fee * otherRest + fee;
  }

  lemma OnePayee(net: nat, supply: nat, fee: nat, other: nat, shares: nat, newSupply: nat, rest: nat, otherRest: nat)
    requires 0 < net && rest < net && otherRest < net && shares * net + rest == fee * supply
    requires supply * (net + fee + other) - net * newSupply == rest + otherRest
    ensures 0 < fee ==> shares * (net + fee + other) < fee * (newSupply + 1)
  {
    if 0 < fee {
      var totalAssets := net + fee + other;
      PayeeWorth(totalAssets, supply, net, fee, shares, newSupply, rest, otherRest);
      RestsCancel(net, fee, other, rest, otherRest);
      BelowOneMore(shares * totalAssets, fee, newSupply, net, fee * (rest + otherRest) - rest * totalAssets);
    }
  }

  lemma BelowOneMore(worth: int, fee: int, newSupply: int, net: nat, extra: int)
    requires 0 < net && worth * net == fee * newSupply * net + extra && extra < fee * net
    ensures worth < fee * (newSupply + 1)
  {
    assert fee * (newSupply + 1) * net == fee * newSupply * net + fee * net;
    MulCancel(worth, fee * (newSupply + 1), net);
  }

  // What the two kinds of fee are

  /** A year at `bps` costs exactly that share of the assets. */
  lemma ManagementFeeOfAYear(totalAssets: nat, bps: nat)
    ensures ManagementFee(totalAssets, bps, 365 * 86_400) == totalAssets * bps / 10_000
  {
    var q := totalAssets * bps / MAX_BPS;
    MulNat(totalAssets, bps);
    Floor(totalAssets * bps, MAX_BPS);
    FloorIs(totalAssets * bps * SECONDS_PER_YEAR, SECONDS_PER_YEAR * MAX_BPS, q);
  }

  /** Posting more often never charges more, and less by under one unit per post. */
  lemma ManagementFeeAccrues(totalAssets: nat, bps: nat, first: nat, second: nat)
    ensures var split := ManagementFee(totalAssets, bps, first) + ManagementFee(totalAssets, bps, second);
      split <= ManagementFee(totalAssets, bps, first + second) <= split + 1
  {
    var rate, unit := totalAssets * bps, SECONDS_PER_YEAR * MAX_BPS;
    MulNat(totalAssets, bps);
    MulNat(rate, first);
    MulNat(rate, second);
    assert rate * (first + second) == rate * first + rate * second;
    Floor(rate * first, unit);
    Floor(rate * second, unit);
    Floor(rate * (first + second), unit);
  }

  /** Taking the whole eligible profit out would still leave every share at the mark, and no more than a unit is missed. */
  lemma ProfitIsAboveMark(totalAssets: nat, supply: nat, highWaterMark: nat)
    requires 0 < supply && highWaterMark < NavOf(totalAssets, supply)
    ensures var profit := EligibleProfit(totalAssets, supply, highWaterMark);
      0 <= profit && highWaterMark * supply <= (totalAssets - profit) * NAV_PRECISION
      && totalAssets * NAV_PRECISION < highWaterMark * supply + (profit + 1) * NAV_PRECISION + supply
  {
    var gross, profit := NavOf(totalAssets, supply), EligibleProfit(totalAssets, supply, highWaterMark);
    Floor(totalAssets * NAV_PRECISION, supply);
    MulNat(gross - highWaterMark, supply);
    Floor((gross - highWaterMark) * supply, NAV_PRECISION);
    assert (gross - highWaterMark) * supply == gross * supply - highWaterMark * supply;
  }

  /** Rates that together take at most all of the profit. */
  lemma PerformanceFeesWithinProfit(profit: nat, managerBps: nat, platformBps: nat)
    requires managerBps + platformBps <= MAX_BPS
    ensures 0 <= PerformanceFee(profit, managerBps) + PerformanceFee(profit, platformBps) <= profit
  {
    MulNat(profit, managerBps);
    MulNat(profit, platformBps);
    Floor(profit * managerBps, MAX_BPS);
    Floor(profit * platformBps, MAX_BPS);
    MulMono(managerBps + platformBps, MAX_BPS, profit);
    assert (managerBps + platformBps) * profit == profit * managerBps + profit * platformBps;
  }

  /** Fees within the eligible profit never dilute the NAV below the mark they were measured from. */
  lemma ProfitFeesSpareMark(totalAssets: nat, supply: nat, highWaterMark: nat, fees: Fees)
    requires 0 < supply && highWaterMark < NavOf(totalAssets, supply)
    requires fees.Total() <= EligibleProfit(totalAssets, supply, highWaterMark) && fees.Total() < totalAssets
    ensures highWaterMark <= Dilute(totalAssets, supply, fees).navPerShare
  {
    ProfitIsAboveMark(totalAssets, supply, highWaterMark);
    NetSparesMark(totalAssets, supply, highWaterMark, fees, EligibleProfit(totalAssets, supply, highWaterMark));
  }

  lemma NetSparesMark(totalAssets: nat, supply: nat, highWaterMark: nat, fees: Fees, profit: nat)
    requires 0 < supply && highWaterMark * supply <= (totalAssets - profit) * NAV_PRECISION
    requires fees.Total() <= profit && fees.Total() < totalAssets
    ensures highWaterMark <= Dilute(totalAssets, supply, fees).navPerShare
  {
    DilutionKeeps(totalAssets, supply, fees);
    var net, d := totalAssets - fees.Total(), Dilute(totalAssets, supply, fees);
    assert highWaterMark * supply <= net * NAV_PRECISION;
    NavCoversMark(totalAssets, supply, d.supply, net, highWaterMark);
  }

  /** With or without fees, the old shares keep at least their part of the net assets. */
  lemma DilutionKeeps(totalAssets: nat, supply: nat, fees: Fees)
    requires 0 < supply && fees.Total() < totalAssets
    ensures var d := Dilute(totalAssets, supply, fees);
      supply <= d.supply && (totalAssets - fees.Total()) * d.supply <= supply * totalAssets
      && d.navPerShare == NavOf(totalAssets, d.supply)
  {
    if fees.Total() == 0 {
      assert totalAssets - fees.Total() == totalAssets && Dilute(totalAssets, supply, fees).supply == supply;
    } else {
      DilutionFair(totalAssets, supply, fees);
    }
  }

  lemma NavCoversMark(totalAssets: nat, supply: nat, newSupply: nat, net: nat, highWaterMark: nat)
    requires 0 < supply && 0 < newSupply
    requires highWaterMark * supply <= net * NAV_PRECISION && net * newSupply <= supply * totalAssets
    ensures highWaterMark <= NavOf(totalAssets, newSupply)
  {
    MarkStaysCovered(totalAssets, supply, newSupply, net, highWaterMark);
    FloorAtLeast(totalAssets * NAV_PRECISION, newSupply, highWaterMark);
  }

  lemma MarkStaysCovered(totalAssets: nat, supply: nat, newSupply: nat, net: nat, highWaterMark: nat)
    requires 0 < supply && highWaterMark * supply <= net * NAV_PRECISION && net * newSupply <= supply * totalAssets
    ensures highWaterMark * newSupply <= totalAssets * NAV_PRECISION
  {
    MulMono(highWaterMark * supply, net * NAV_PRECISION, newSupply);
    MulMono(net * newSupply, supply * totalAssets, NAV_PRECISION);
    MulSwap(highWaterMark, supply, newSupply);
    MulSwap(net, NAV_PRECISION, newSupply);
    MulAssoc(supply, totalAssets, NAV_PRECISION);
    if totalAssets * NAV_PRECISION < highWaterMark * newSupply {
      MulMono(totalAssets * NAV_PRECISION + 1, highWaterMark * newSupply, supply);
    }
  }

  lemma FloorAtLeast(a: nat, b: nat, q: nat)
    requires 0 < b && q * b <= a
    ensures q <= a / b
  {
    Floor(a, b);
    if a / b < q { MulMono(a / b + 1, q, b); }
  }
}
