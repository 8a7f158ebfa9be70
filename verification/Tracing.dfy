/**
 Tracing requests through the log: a live request holds exactly what its owner put in since it opened,
 all of it in one epoch, and the NAV in force is the one of the latest post. Forward pricing and the
 exact refund follow.
 */
module Tracing {
  import opened Words
  import opened Arithmetic
  import opened Tables
  import opened VaultModel
  import opened Requests
  import opened Protocol
  import opened Runs
  import opened Frames
  import opened Posting

  // Time

  lemma EpochMono(s: i64, t: i64)
    requires 0 <= s <= t
    ensures Epoch(s) == s / EPOCH_DURATION && Epoch(s) <= Epoch(t)
  {
    FloorMono(s, t, EPOCH_DURATION);
  }

  predicate InClockOrder(log: Log, now: i64) {
    0 <= now
    && (forall i :: 0 <= i < |log| ==> 0 <= log[i].now <= now)
    && (forall i, j :: 0 <= i <= j < |log| ==> log[i].now <= log[j].now)
  }

  /** The NAV and the NAV epoch are those of the latest post. */
  predicate NavPostedLast(v: VaultState, log: Log) {
    var k := LastPost(log);
    v.navPerShare == NavInForce(log)
    && v.navEpoch == (if k < 0 then 0 else Epoch(log[k].now))
    && (0 <= k ==> v.lastNavTs == log[k].now)
  }

  lemma KeepsNavPosted(a: Accounts, log: Log, now: i64, ix: Instruction, o: Outcome)
    requires NavPostedLast(a.vault, log) && Apply(a, now, ix) == Ok(o)
    ensures NavPostedLast(o.accounts.vault, log + [Entry(now, o.event)])
  {
    Appended(log, Entry(now, o.event));
    if ix.IsRequest() {
      TermsUntouched(a, now, ix, o);
    } else if ix.IsOutside() {
      VaultUntouched(a, now, ix, o);
    } else if ix.IsPost() {
      PostApplied(a, now, ix, o);
      InstructionIsPosted(a, now, ix.totalAssets, ix.BoundOf(a.config), o);
    } else {
      PricesUntouched(a, now, ix, o);
    }
  }

  // Requests

  /** What one step does to the requests of one side, told from its event alone. */
  predicate Tracks(before: RequestTable, after: RequestTable, now: i64, e: Event, side: Side) {
    if RequestedBy(e, side, UserOf(e)) then
      0 < e.amount
      && UserOf(e) in after && after == before[UserOf(e) := after[UserOf(e)]]
      && AddTo(OpenOrLive(before, UserOf(e), now), e.amount, Epoch(now)) == Ok(after[UserOf(e)])
    else if ClosedFor(e, side, UserOf(e)) then
      UserOf(e) in before && before[UserOf(e)].amount == e.amount && after == before - {UserOf(e)}
    else
      after == before
  }

  /** The user an event is about, where it has one. */
  function UserOf(e: Event): Key {
    match e
    case DepositRequested(user, _) => user
    case DepositReturned(user, _) => user
    case DepositResolved(user, _, _, _) => user
    case WithdrawalRequested(user, _) => user
    case WithdrawalReturned(user, _) => user
    case WithdrawalResolved(user, _, _, _) => user
    case _ => 0
  }

  lemma DepositsTracked(a: Accounts, now: i64, ix: Instruction, o: Outcome)
    requires ix.IsRequest() && Apply(a, now, ix) == Ok(o)
    ensures Tracks(a.deposits, o.accounts.deposits, now, o.event, DepositSide)
  {
  }

  lemma WithdrawalsTracked(a: Accounts, now: i64, ix: Instruction, o: Outcome)
    requires ix.IsRequest() && Apply(a, now, ix) == Ok(o)
    ensures Tracks(a.withdrawals, o.accounts.withdrawals, now, o.event, WithdrawalSide)
  {
  }

  lemma NoRequestEvent(a: Accounts, now: i64, ix: Instruction, o: Outcome)
    requires !ix.IsRequest() && Apply(a, now, ix) == Ok(o)
    ensures forall side, user :: !RequestedBy(o.event, side, user) && !ClosedFor(o.event, side, user)
  {
  }

  lemma StepTracked(a: Accounts, now: i64, ix: Instruction, o: Outcome)
    requires Apply(a, now, ix) == Ok(o)
    ensures Tracks(a.deposits, o.accounts.deposits, now, o.event, DepositSide)
    ensures Tracks(a.withdrawals, o.accounts.withdrawals, now, o.event, WithdrawalSide)
  {
    if ix.IsRequest() {
      DepositsTracked(a, now, ix, o);
      WithdrawalsTracked(a, now, ix, o);
    } else {
      RequestsUntouched(a, now, ix, o);
      NoRequestEvent(a, now, ix, o);
    }
  }

  /** Everything `user` put in since the request opened was put in during `epoch`. */
  predicate OpenedIn(log: Log, side: Side, user: Key, epoch: u64) {
    forall j :: OpenSince(log, side, user) <= j < |log| && RequestedBy(log[j].event, side, user) ==> Epoch(log[j].now) == epoch
  }

  /** The live request of `user`, or its absence, is what the log says. */
  predicate TracedFor(requests: RequestTable, log: Log, side: Side, user: Key) {
    if user in requests then
      0 < requests[user].amount == Contributed(log, side, user)
      && OpenedIn(log, side, user, requests[user].epoch)
    else
      Contributed(log, side, user) == 0
      && forall j :: OpenSince(log, side, user) <= j < |log| ==> !RequestedBy(log[j].event, side, user)
  }

  ghost predicate Traced(requests: RequestTable, log: Log, side: Side) {
    forall user :: TracedFor(requests, log, side, user)
  }

  lemma KeepsTracedFor(before: RequestTable, after: RequestTable, log: Log, now: i64, e: Event, side: Side, user: Key)
    requires TracedFor(before, log, side, user)
    requires Tracks(before, after, now, e, side)
    ensures TracedFor(after, log + [Entry(now, e)], side, user)
  {
    var longer := log + [Entry(now, e)];
    Appended(log, Entry(now, e));
    if ClosedFor(e, side, user) {
      assert UserOf(e) == user;
    } else {
      assert OpenSince(longer, side, user) == OpenSince(log, side, user);
      if RequestedBy(e, side, user) {
        assert UserOf(e) == user;
      }
    }
  }

  lemma KeepsTraced(a: Accounts, log: Log, now: i64, ix: Instruction, o: Outcome)
    requires Traced(a.deposits, log, DepositSide) && Traced(a.withdrawals, log, WithdrawalSide)
    requires Apply(a, now, ix) == Ok(o)
    ensures Traced(o.accounts.deposits, log + [Entry(now, o.event)], DepositSide)
    ensures Traced(o.accounts.withdrawals, log + [Entry(now, o.event)], WithdrawalSide)
  {
    StepTracked(a, now, ix, o);
    forall user ensures TracedFor(o.accounts.deposits, log + [Entry(now, o.event)], DepositSide, user) {
      KeepsTracedFor(a.deposits, o.accounts.deposits, log, now, o.event, DepositSide, user);
    }
    forall user ensures TracedFor(o.accounts.withdrawals, log + [Entry(now, o.event)], WithdrawalSide, user) {
      KeepsTracedFor(a.withdrawals, o.accounts.withdrawals, log, now, o.event, WithdrawalSide, user);
    }
  }
}
