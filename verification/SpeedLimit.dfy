/**
 The NAV speed limit: the deviation bound of single posts, compounded over the epochs of a run.
 */
module SpeedLimit {
  import opened Words
  import opened Arithmetic
  import opened VaultModel
  import opened Protocol
  import opened Runs
  import opened Frames
  import opened Posting
  import opened Tracing

  /** A post comes in a later epoch than the post before it, and within its bound, if it had one, of at most 100%. */
  predicate Linked(before: Log, e: Entry)
    requires e.event.NavPosted?
  {
    var k := LastPost(before);
    (0 <= k ==> Epoch(before[k].now) < Epoch(e.now))
    && (e.event.bound.Some? ==> e.event.bound.value <= MAX_BPS)
    && (0 < e.event.supply && e.event.bound.Some? ==>
          WithinDeviation(e.event.navPerShare, NavInForce(before), e.event.bound.value))
  }

  predicate Chained(log: Log) {
    forall i :: 0 <= i < |log| && log[i].event.NavPosted? ==> Linked(log[..i], log[i])
  }

  lemma LinkedAfterPost(a: Accounts, log: Log, now: i64, ix: Instruction, o: Outcome)
    requires NavPostedLast(a.vault, log) && a.config.Valid() && ix.IsPost() && Apply(a, now, ix) == Ok(o)
    ensures o.event.NavPosted? && Linked(log, Entry(now, o.event))
  {
    PostApplied(a, now, ix, o);
    InstructionIsPosted(a, now, ix.totalAssets, ix.BoundOf(a.config), o);
  }

  lemma NotAPost(a: Accounts, now: i64, ix: Instruction, o: Outcome)
    requires !ix.IsPost() && Apply(a, now, ix) == Ok(o)
    ensures !o.event.NavPosted?
  {
    if ix.IsRequest() {
      TermsUntouched(a, now, ix, o);
    } else if ix.IsOutside() {
      VaultUntouched(a, now, ix, o);
    } else {
      PricesUntouched(a, now, ix, o);
    }
  }

  lemma KeepsChained(a: Accounts, log: Log, now: i64, ix: Instruction, o: Outcome)
    requires Chained(log) && NavPostedLast(a.vault, log) && a.config.Valid() && Apply(a, now, ix) == Ok(o)
    ensures Chained(log + [Entry(now, o.event)])
  {
    if ix.IsPost() {
      LinkedAfterPost(a, log, now, ix, o);
    } else {
      NotAPost(a, now, ix, o);
    }
    ChainedAppend(log, Entry(now, o.event));
  }

  lemma ChainedAppend(log: Log, e: Entry)
    requires Chained(log) && (e.event.NavPosted? ==> Linked(log, e))
    ensures Chained(log + [e])
  {
    var longer := log + [e];
    forall i | 0 <= i < |longer| && longer[i].event.NavPosted? ensures Linked(longer[..i], longer[i]) {
      assert longer[..i] == if i < |log| then log[..i] else log;
    }
  }

  // Powers

  function Pow(base: nat, exponent: nat): nat {
    if exponent == 0 then 1 else base * Pow(base, exponent - 1)
  }

  lemma {:induction false} PowMono(base: nat, larger: nat, exponent: nat)
    requires base <= larger
    ensures Pow(base, exponent) <= Pow(larger, exponent)
  {
    if exponent > 0 {
      PowMono(base, larger, exponent - 1);
      MulMono2(base, larger, Pow(base, exponent - 1), Pow(larger, exponent - 1));
    }
  }

  lemma {:induction false} PowAdd(base: nat, m: nat, n: nat)
    ensures Pow(base, m + n) == Pow(base, m) * Pow(base, n)
  {
    if m > 0 {
      PowAdd(base, m - 1, n);
      MulAssoc(base, Pow(base, m - 1), Pow(base, n));
    }
  }

  /** If one unit of x is at most p/q of y, then so it is with any higher power of p and q in place of them, for q <= p. */
  lemma {:induction false} RatioUp(x: nat, y: nat, q: nat, p: nat, d: nat)
    requires q <= p && 0 < d && x * q <= y * p
    ensures x * Pow(q, d) <= y * Pow(p, d)
  {
    PowMono(q, p, d - 1);
    MulMono2(x * q, y * p, Pow(q, d - 1), Pow(p, d - 1));
    MulAssoc(x, q, Pow(q, d - 1));
    MulAssoc(y, p, Pow(p, d - 1));
  }

  lemma ProductChain(x: nat, y: nat, z: nat, a: nat, b: nat, c: nat, e: nat)
    requires x * a <= y * b && y * c <= z * e
    ensures x * (a * c) <= z * (b * e)
  {
    MulMono(x * a, y * b, c);
    MulMono(y * c, z * e, b);
    MulAssoc(x, a, c);
    MulSwap(y, b, c);
    MulAssoc(z, b, e);
    MulSwap(z, b, e);
  }

  /** Bounds over two stretches of epochs multiply. */
  lemma RatioChain(x: nat, y: nat, z: nat, q: nat, p: nat, m: nat, d: nat)
    requires x * Pow(q, m) <= y * Pow(p, m)
    requires y * Pow(q, d) <= z * Pow(p, d)
    ensures x * Pow(q, m + d) <= z * Pow(p, m + d)
  {
    PowAdd(q, m, d);
    PowAdd(p, m, d);
    ProductChain(x, y, z, Pow(q, m), Pow(p, m), Pow(q, d), Pow(p, d));
  }

  // The limit

  /** A `nav_update` post with shares outstanding, held to a bound of at most `bps`. */
  predicate Limited(e: Event, bps: nat) {
    e.NavPosted? && 0 < e.supply && e.bound.Some? && e.bound.value <= bps
  }

  /** One bounded post, cleared of its floor. */
  lemma OneStep(previous: nat, next: nat, bound: nat, bps: nat)
    requires bound <= bps <= MAX_BPS && WithinDeviation(next, previous, bound)
    ensures previous * (MAX_BPS - bps) <= next * MAX_BPS <= previous * (MAX_BPS + bps)
  {
    MulNat(previous, bound);
    Floor(previous * bound, MAX_BPS);
    MulMono(bound, bps, previous);
    assert previous * (MAX_BPS - bps) == previous * MAX_BPS - previous * bps;
    assert previous * (MAX_BPS + bps) == previous * MAX_BPS + previous * bps;
  }

  /** The NAV at post i and at post k bound each other by the epochs between them. */
  predicate WithinSpeed(log: Log, i: nat, k: nat, bps: nat)
    requires i < |log| && k < |log| && log[i].event.NavPosted? && log[k].event.NavPosted? && bps <= MAX_BPS
  {
    var n := Epoch(log[k].now) - Epoch(log[i].now);
    var nav, nav' := log[i].event.navPerShare, log[k].event.navPerShare;
    0 <= n
    && nav * Pow(MAX_BPS - bps, n) <= nav' * Pow(MAX_BPS, n) <= nav * Pow(MAX_BPS + bps, n)
  }

  lemma StepWithinSpeed(log: Log, p: nat, k: nat, bps: nat)
    requires Chained(log) && p < k < |log| && bps <= MAX_BPS
    requires p == LastPost(log[..k]) && Limited(log[k].event, bps)
    ensures log[p].event.NavPosted? && WithinSpeed(log, p, k, bps)
  {
    var nav, nav' := log[p].event.navPerShare, log[k].event.navPerShare;
    assert log[..k][p] == log[p];
    assert Linked(log[..k], log[k]);
    OneStep(nav, nav', log[k].event.bound.value, bps);
    var d := Epoch(log[k].now) - Epoch(log[p].now);
    RatioUp(nav, nav', MAX_BPS - bps, MAX_BPS, d);
    RatioUp(nav', nav, MAX_BPS, MAX_BPS + bps, d);
  }

  /** Over any run of bounded posts the NAV moves no faster than the bound compounded per epoch. */
  lemma {:induction false} RunWithinSpeed(log: Log, i: nat, k: nat, bps: nat)
    requires Chained(log) && i <= k < |log| && bps <= MAX_BPS
    requires log[i].event.NavPosted? && log[k].event.NavPosted?
    requires forall j :: i < j <= k && log[j].event.NavPosted? ==> Limited(log[j].event, bps)
    ensures WithinSpeed(log, i, k, bps)
    decreases k
  {
    if i < k {
      assert log[..k][i] == log[i];
      var p := LastPost(log[..k]);
      assert log[..k][p] == log[p];
      RunWithinSpeed(log, i, p, bps);
      StepWithinSpeed(log, p, k, bps);
      var m, d := Epoch(log[p].now) - Epoch(log[i].now), Epoch(log[k].now) - Epoch(log[p].now);
      var nav, mid, nav' := log[i].event.navPerShare, log[p].event.navPerShare, log[k].event.navPerShare;
      RatioChain(nav, mid, nav', MAX_BPS - bps, MAX_BPS, m, d);
      RatioChain(nav', mid, nav, MAX_BPS, MAX_BPS + bps, d, m);
    }
  }
}
