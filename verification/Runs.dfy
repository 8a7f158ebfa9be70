/**
 Runs of the program: transactions in clock order, each either applied or rolled back, and the log of
 the events that the successful ones emitted. The log is what the guarantees about whole runs speak
 of: who put what into a request and when, which post wrote the NAV in force, which fees were asked for.
 */
module Runs {
  import opened Words
  import opened Tables
  import opened VaultModel
  import opened Requests
  import opened Protocol

  /** An event and the block time of its transaction. */
  datatype Entry = Entry(now: i64, event: Event)

  type Log = seq<Entry>

  datatype Machine = Machine(accounts: Accounts, now: i64, log: Log)

  datatype Tx = Tx(now: i64, ix: Instruction)

  function Step(m: Machine, tx: Tx): Machine {
    match Apply(m.accounts, tx.now, tx.ix)
    case Ok(o) => Machine(o.accounts, tx.now, m.log + [Entry(tx.now, o.event)])
    case Err(_) => m.(now := tx.now)
  }

  function Run(m: Machine, txs: seq<Tx>): Machine
    decreases |txs|
  {
    if txs == [] then m else Run(Step(m, txs[0]), txs[1..])
  }

  /** Block times never go back. */
  predicate Ordered(start: i64, txs: seq<Tx>)
    decreases |txs|
  {
    txs != [] ==> start <= txs[0].now && Ordered(txs[0].now, txs[1..])
  }

  /** What a new vault starts from. Its own token account may have been funded before. */
  datatype Genesis = Genesis(
    vault: NewVaultArgs, config: Config, authority: Key, depositMint: Key, shareMint: Key, tokens: Table, idle: nat)
  {
    /** What `vault_initialize` checks of its arguments, for a clock past the Unix epoch. */
    predicate Valid() {
      config.Valid() && config.nextVaultId < U64_MAX
      && vault.performanceFeeBps <= MAX_BPS && vault.managementFeeBps <= MAX_BPS
      && 0 < vault.minDeposit && 0 < vault.minWithdrawalShares
      && 0 <= vault.currentTs
    }

    function Start(): Machine
      requires config.nextVaultId < U64_MAX
    {
      Machine(
        Accounts(
          NewVault(vault), config.(nextVaultId := config.nextVaultId + 1), authority, depositMint, shareMint,
          map[], map[], tokens, map[], 0, 0, 0, idle, map[], false),
        vault.currentTs,
        [])
    }
  }

  ghost predicate ReachedBy(m: Machine, g: Genesis, txs: seq<Tx>) {
    g.Valid() && Ordered(g.vault.currentTs, txs) && m == Run(g.Start(), txs)
  }

  /** Some run from a newly initialized vault ends in `m`. */
  ghost predicate Reachable(m: Machine) {
    exists g, txs :: ReachedBy(m, g, txs)
  }

  // Extending a run

  lemma {:induction false} RunAppend(m: Machine, txs: seq<Tx>, tx: Tx)
    ensures Run(m, txs + [tx]) == Step(Run(m, txs), tx)
    decreases |txs|
  {
    if txs == [] {
      assert txs + [tx] == [tx] && [tx][1..] == [];
    } else {
      assert (txs + [tx])[1..] == txs[1..] + [tx];
      RunAppend(Step(m, txs[0]), txs[1..], tx);
    }
  }

  lemma {:induction false} OrderedAppend(m: Machine, txs: seq<Tx>, tx: Tx)
    requires Ordered(m.now, txs) && Run(m, txs).now <= tx.now
    ensures Ordered(m.now, txs + [tx]) && m.now <= Run(m, txs).now
    decreases |txs|
  {
    if txs == [] {
      assert txs + [tx] == [tx];
    } else {
      assert (txs + [tx])[1..] == txs[1..] + [tx];
      OrderedAppend(Step(m, txs[0]), txs[1..], tx);
    }
  }

  lemma StepStaysReachable(m: Machine, tx: Tx)
    requires Reachable(m) && m.now <= tx.now
    ensures Reachable(Step(m, tx))
  {
    var g, txs :| ReachedBy(m, g, txs);
    RunAppend(g.Start(), txs, tx);
    OrderedAppend(g.Start(), txs, tx);
    assert ReachedBy(Step(m, tx), g, txs + [tx]);
  }

  // Reading the log

  function Front(log: Log): Log
    requires log != []
  {
    log[..|log| - 1]
  }

  function Last(log: Log): Entry
    requires log != []
  {
    log[|log| - 1]
  }

  /** The index of the latest NAV post, or -1. */
  function LastPost(log: Log): (i: int)
    ensures -1 <= i < |log|
    ensures 0 <= i ==> log[i].event.NavPosted?
    ensures forall j :: i < j < |log| ==> !log[j].event.NavPosted?
  {
    if log == [] then -1
    else if Last(log).event.NavPosted? then |log| - 1
    else LastPost(Front(log))
  }

  /** The NAV in force at the end of the log. */
  function NavInForce(log: Log): u64 {
    var i := LastPost(log);
    if i < 0 then NAV_PRECISION else log[i].event.navPerShare
  }

  predicate RequestedBy(e: Event, side: Side, user: Key) {
    match side
    case DepositSide => e.DepositRequested? && e.user == user
    case WithdrawalSide => e.WithdrawalRequested? && e.user == user
  }

  /** The request of `user` ended, by cancellation, rejection or settlement. */
  predicate ClosedFor(e: Event, side: Side, user: Key) {
    match side
    case DepositSide => (e.DepositReturned? || e.DepositResolved?) && e.user == user
    case WithdrawalSide => (e.WithdrawalReturned? || e.WithdrawalResolved?) && e.user == user
  }

  /** Where the entries of the request now open begin: just after the last one that closed. */
  function OpenSince(log: Log, side: Side, user: Key): (i: nat)
    ensures i <= |log|
    ensures 0 < i ==> ClosedFor(log[i - 1].event, side, user)
    ensures forall j :: i <= j < |log| ==> !ClosedFor(log[j].event, side, user)
  {
    if log == [] then 0
    else if ClosedFor(Last(log).event, side, user) then |log|
    else OpenSince(Front(log), side, user)
  }

  /** Everything `user` put into the request now open. */
  function Contributed(log: Log, side: Side, user: Key): nat {
    if log == [] || ClosedFor(Last(log).event, side, user) then 0
    else Contributed(Front(log), side, user) + (if RequestedBy(Last(log).event, side, user) then Last(log).event.amount else 0)
  }

  function DonatedTokens(log: Log): nat {
    if log == [] then 0
    else DonatedTokens(Front(log)) + (if Last(log).event.TokensDonated? then Last(log).event.amount else 0)
  }

  function DonatedShares(log: Log): nat {
    if log == [] then 0
    else DonatedShares(Front(log)) + (if Last(log).event.SharesDonated? then Last(log).event.shares else 0)
  }

  /** The highest of NAV_PRECISION and every NAV posted. */
  function PeakNav(log: Log): (peak: nat)
    ensures NAV_PRECISION <= peak
    ensures forall i :: 0 <= i < |log| && log[i].event.NavPosted? ==> log[i].event.navPerShare <= peak
    ensures peak == NAV_PRECISION || exists i :: 0 <= i < |log| && log[i].event.NavPosted? && log[i].event.navPerShare == peak
  {
    if log == [] then NAV_PRECISION
    else
      var before := PeakNav(Front(log));
      if Last(log).event.NavPosted? && Last(log).event.navPerShare > before then Last(log).event.navPerShare else before
  }

  /** The index of the latest fee update, or -1. */
  function LastFeeUpdate(log: Log): (i: int)
    ensures -1 <= i < |log|
    ensures 0 <= i ==> log[i].event.FeesUpdated?
    ensures forall j :: i < j < |log| ==> !log[j].event.FeesUpdated?
  {
    if log == [] then -1
    else if Last(log).event.FeesUpdated? then |log| - 1
    else LastFeeUpdate(Front(log))
  }

  /** Appending an entry, in the form that the recursive readings above unfold. */
  lemma Appended(log: Log, e: Entry)
    ensures Front(log + [e]) == log && Last(log + [e]) == e
  {
  }
}
