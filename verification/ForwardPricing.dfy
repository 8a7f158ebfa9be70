/**
 Forward pricing and exact refunds, as properties of the log: whatever closes a request closes all that
 its owner put in, and a settlement is priced by a post later than every contribution to it.
 */
module ForwardPricing {
  import opened Words
  import opened Tables
  import opened VaultModel
  import opened Requests
  import opened Protocol
  import opened Runs
  import opened Tracing

  /** The index of the latest contribution to the request now open, or -1. */
  function LastContribution(log: Log, side: Side, user: Key): (i: int)
    ensures -1 <= i < |log|
    ensures 0 <= i ==> OpenSince(log, side, user) <= i && RequestedBy(log[i].event, side, user)
    ensures forall j :: i < j < |log| && OpenSince(log, side, user) <= j ==> !RequestedBy(log[j].event, side, user)
  {
    if log == [] || ClosedFor(Last(log).event, side, user) then -1
    else if RequestedBy(Last(log).event, side, user) then |log| - 1
    else LastContribution(Front(log), side, user)
  }

  lemma {:induction false} SomethingContributed(log: Log, side: Side, user: Key)
    requires 0 < Contributed(log, side, user)
    ensures 0 <= LastContribution(log, side, user)
    decreases |log|
  {
    if !RequestedBy(Last(log).event, side, user) {
      SomethingContributed(Front(log), side, user);
    }
  }

  /**
   The latest post is the price, and came strictly after everything in the request: later in the log, in
   time, and in epochs, all contributions being of one epoch.
   */
  predicate SettledAt(before: Log, side: Side, user: Key, amount: nat, nav: nat) {
    var k, j := LastPost(before), LastContribution(before, side, user);
    0 <= k && nav == before[k].event.navPerShare
    && amount == Contributed(before, side, user)
    && 0 <= j && OpenedIn(before, side, user, Epoch(before[j].now)) && Epoch(before[j].now) < Epoch(before[k].now)
    && forall j :: OpenSince(before, side, user) <= j < |before| && RequestedBy(before[j].event, side, user) ==>
         j < k && before[j].now < before[k].now
  }

  /** What the closing of a request owes to the entries before it. */
  predicate FairlyClosed(before: Log, e: Event) {
    match e
    case DepositReturned(user, amount) => amount == Contributed(before, DepositSide, user)
    case WithdrawalReturned(user, shares) => shares == Contributed(before, WithdrawalSide, user)
    case DepositResolved(user, amount, minted, nav) =>
      SettledAt(before, DepositSide, user, amount, nav) && 0 < nav && minted == SharesFor(amount, nav)
    case WithdrawalResolved(user, shares, paid, nav) =>
      SettledAt(before, WithdrawalSide, user, shares, nav) && paid == PayoutFor(shares, nav)
    case _ => true
  }

  predicate AllFairlyClosed(log: Log) {
    forall i :: 0 <= i < |log| ==> FairlyClosed(log[..i], log[i].event)
  }

  /** A request of an epoch before the latest post was put in entirely before that post. */
  lemma PostedAfter(requests: RequestTable, v: VaultState, log: Log, now: i64, side: Side, user: Key)
    requires InClockOrder(log, now) && NavPostedLast(v, log)
    requires TracedFor(requests, log, side, user)
    requires user in requests && requests[user].Resolvable(v.navEpoch)
    ensures SettledAt(log, side, user, requests[user].amount, v.navPerShare)
  {
    var k := LastPost(log);
    SomethingContributed(log, side, user);
    forall j | OpenSince(log, side, user) <= j < |log| && RequestedBy(log[j].event, side, user)
      ensures j < k && log[j].now < log[k].now
    {
      if log[k].now <= log[j].now {
        EpochMono(log[k].now, log[j].now);
      }
    }
  }

  lemma ResolvedFairly(a: Accounts, log: Log, clock: i64, now: i64, ix: Instruction, o: Outcome)
    requires InClockOrder(log, clock) && NavPostedLast(a.vault, log)
    requires Traced(a.deposits, log, DepositSide) && Traced(a.withdrawals, log, WithdrawalSide)
    requires (ix.DepositResolve? || ix.WithdrawalResolve?) && Apply(a, now, ix) == Ok(o)
    ensures FairlyClosed(log, o.event)
  {
    if ix.DepositResolve? {
      PostedAfter(a.deposits, a.vault, log, clock, DepositSide, ix.user);
    } else {
      PostedAfter(a.withdrawals, a.vault, log, clock, WithdrawalSide, ix.user);
    }
  }

  lemma ReturnedFairly(a: Accounts, log: Log, now: i64, ix: Instruction, o: Outcome)
    requires Traced(a.deposits, log, DepositSide) && Traced(a.withdrawals, log, WithdrawalSide)
    requires ix.IsRequest() && !ix.DepositResolve? && !ix.WithdrawalResolve? && Apply(a, now, ix) == Ok(o)
    ensures FairlyClosed(log, o.event)
  {
    assert TracedFor(a.deposits, log, DepositSide, ix.user);
    assert TracedFor(a.withdrawals, log, WithdrawalSide, ix.user);
  }

  lemma NothingClosed(log: Log, e: Event)
    requires forall side, user :: !ClosedFor(e, side, user)
    ensures FairlyClosed(log, e)
  {
    assert !ClosedFor(e, DepositSide, UserOf(e)) && !ClosedFor(e, WithdrawalSide, UserOf(e));
  }

  lemma KeepsFairlyClosed(a: Accounts, log: Log, clock: i64, now: i64, ix: Instruction, o: Outcome)
    requires InClockOrder(log, clock) && NavPostedLast(a.vault, log)
    requires Traced(a.deposits, log, DepositSide) && Traced(a.withdrawals, log, WithdrawalSide)
    requires AllFairlyClosed(log) && Apply(a, now, ix) == Ok(o)
    ensures AllFairlyClosed(log + [Entry(now, o.event)])
  {
    if ix.DepositResolve? || ix.WithdrawalResolve? {
      ResolvedFairly(a, log, clock, now, ix, o);
    } else if ix.IsRequest() {
      ReturnedFairly(a, log, now, ix, o);
    } else {
      NoRequestEvent(a, now, ix, o);
      NothingClosed(log, o.event);
    }
    FairlyClosedAppend(log, Entry(now, o.event));
  }

  lemma FairlyClosedAppend(log: Log, e: Entry)
    requires AllFairlyClosed(log) && FairlyClosed(log, e.event)
    ensures AllFairlyClosed(log + [e])
  {
    var longer := log + [e];
    forall i | 0 <= i < |longer| ensures FairlyClosed(longer[..i], longer[i].event) {
      assert longer[..i] == if i < |log| then log[..i] else log;
    }
  }

  // The first post of a later epoch

  predicate LaterPost(log: Log, p: int, epoch: int) {
    0 <= p < |log| && log[p].event.NavPosted? && epoch < Epoch(log[p].now)
  }

  /** Post `k` is the first one of an epoch after `epoch`. */
  predicate FirstLaterPost(log: Log, k: int, epoch: int) {
    LaterPost(log, k, epoch) && forall p :: 0 <= p < k ==> !LaterPost(log, p, epoch)
  }

  /** The latest post is the first of a later epoch exactly if the post before it was not of a later epoch. */
  lemma {:induction false} FirstIfPreviousNotLater(log: Log, now: i64, epoch: int)
    requires InClockOrder(log, now) && LaterPost(log, LastPost(log), epoch)
    ensures var k := LastPost(log);
      FirstLaterPost(log, k, epoch) <==> !LaterPost(log, LastPost(log[..k]), epoch)
  {
    var k := LastPost(log);
    var q := LastPost(log[..k]);
    forall p | 0 <= p < k && LaterPost(log, p, epoch) ensures LaterPost(log, q, epoch) {
      assert log[..k][p] == log[p];
      assert log[..k][q] == log[q];
      EpochMono(log[p].now, log[q].now);
    }
  }

  /** A post before a contribution is of no later epoch than the contribution. */
  lemma {:induction false} EarlierPostsAreNotLater(log: Log, now: i64, j: nat, k: int)
    requires InClockOrder(log, now) && j < |log|
    ensures var epoch := Epoch(log[j].now);
      (forall p :: 0 <= p < k ==> !LaterPost(log, p, epoch)) <==> (forall p :: j < p < k ==> !LaterPost(log, p, epoch))
  {
    forall p | 0 <= p <= j ensures !LaterPost(log, p, Epoch(log[j].now)) {
      EpochMono(log[p].now, log[j].now);
    }
  }

  predicate ResolvedFor(e: Event, side: Side, user: Key) {
    match side
    case DepositSide => e.DepositResolved? && e.user == user
    case WithdrawalSide => e.WithdrawalResolved? && e.user == user
  }

  lemma {:induction false} FirstnessInLog(log: Log, now: i64, i: nat, side: Side, user: Key)
    requires AllFairlyClosed(log) && InClockOrder(log, now)
    requires i < |log| && ResolvedFor(log[i].event, side, user)
    ensures var before := log[..i];
      var k, j := LastPost(before), LastContribution(before, side, user);
      0 <= j < k && LaterPost(before, k, Epoch(before[j].now))
      && (FirstLaterPost(before, k, Epoch(before[j].now)) <==>
            forall p :: j < p < k ==> !LaterPost(before, p, Epoch(before[j].now)))
      && (FirstLaterPost(before, k, Epoch(before[j].now)) <==>
            !LaterPost(before, LastPost(before[..k]), Epoch(before[j].now)))
  {
    var before := log[..i];
    assert FairlyClosed(before, log[i].event);
    var k, j := LastPost(before), LastContribution(before, side, user);
    FirstIfPreviousNotLater(before, now, Epoch(before[j].now));
    EarlierPostsAreNotLater(before, now, j, k);
  }
}
