/** Strategy records and the closing of a vault. */
module Closing {
  import opened Words
  import opened Tables
  import opened VaultModel
  import opened Requests
  import opened Protocol
  import opened Runs
  import opened Frames
  import opened Posting
  import opened Escrow
  import opened Tracing

  /** The counter counts the live records, whose ids are distinct and below the next id. */
  predicate StrategiesCounted(a: Accounts) {
    a.vault.openStrategyCount == |a.strategies|
    && (forall r :: r in a.strategies ==> a.strategies[r] < a.vault.nextStrategyId)
    && (forall r, r' :: r in a.strategies && r' in a.strategies && a.strategies[r] == a.strategies[r'] ==> r == r')
  }

  lemma CountedAfterOpen(a: Accounts, record: Key, o: Outcome)
    requires StrategiesCounted(a) && InitializeStrategy(a, record) == Ok(o)
    ensures StrategiesCounted(o.accounts)
  {
    assert o.accounts.strategies.Keys == a.strategies.Keys + {record};
  }

  lemma CountedAfterClose(a: Accounts, record: Key, emptied: bool, o: Outcome)
    requires StrategiesCounted(a) && CloseStrategyRecord(a, record, emptied) == Ok(o)
    ensures StrategiesCounted(o.accounts)
  {
    assert o.accounts.strategies.Keys == a.strategies.Keys - {record};
  }

  lemma StrategiesUntouched(a: Accounts, now: i64, ix: Instruction, o: Outcome)
    requires !ix.IsRequest() && !ix.IsOutside() && !ix.IsPost() && !ix.StrategyInitialize? && !ix.StrategyClose?
    requires Apply(a, now, ix) == Ok(o)
    ensures o.accounts.strategies == a.strategies
    ensures o.accounts.vault.openStrategyCount == a.vault.openStrategyCount
    ensures o.accounts.vault.nextStrategyId == a.vault.nextStrategyId
  {
  }

  lemma KeepsStrategiesCounted(a: Accounts, now: i64, ix: Instruction, o: Outcome)
    requires StrategiesCounted(a) && Apply(a, now, ix) == Ok(o)
    ensures StrategiesCounted(o.accounts)
  {
    if ix.IsRequest() {
      TermsUntouched(a, now, ix, o);
    } else if ix.IsOutside() {
      VaultUntouched(a, now, ix, o);
    } else if ix.IsPost() {
      PostApplied(a, now, ix, o);
      InstructionIsPosted(a, now, ix.totalAssets, ix.BoundOf(a.config), o);
    } else if ix.StrategyInitialize? {
      CountedAfterOpen(a, ix.record, o);
    } else if ix.StrategyClose? {
      CountedAfterClose(a, ix.record, ix.emptied, o);
    } else {
      StrategiesUntouched(a, now, ix, o);
    }
  }

  /** A record opens under the next id, exactly if the gates are open and its mint is neither of the vault's. */
  lemma StrategyOpens(a: Accounts, now: i64, record: Key)
    ensures var r, v := Apply(a, now, StrategyInitialize(record)), a.vault;
      (r.Ok? <==> !a.closed && record !in a.strategies && a.config.status == Normal && a.vault.status == Normal
                  && record != a.depositMint && record != a.shareMint
                  && v.nextStrategyId < U32_MAX && v.openStrategyCount < U32_MAX)
      && (r.Ok? ==>
            r.value.accounts == a.(
              strategies := a.strategies[record := v.nextStrategyId],
              vault := v.(nextStrategyId := v.nextStrategyId + 1, openStrategyCount := v.openStrategyCount + 1)))
  {
  }

  /** A record goes exactly if it is there, the way out is open and nothing is left behind it; and no other record goes. */
  lemma StrategyCloses(a: Accounts, now: i64, record: Key, emptied: bool)
    ensures var r, v := Apply(a, now, StrategyClose(record, emptied)), a.vault;
      (r.Ok? <==> !a.closed && record in a.strategies && a.config.status != Paused && a.vault.status != Paused
                  && 0 < v.openStrategyCount && emptied)
      && (r.Ok? ==>
            r.value.accounts == a.(strategies := a.strategies - {record},
                                   vault := v.(openStrategyCount := v.openStrategyCount - 1)))
  {
  }

  /** In good standing, closing a record never runs the counter below zero. */
  lemma CloseNeverUnderflows(a: Accounts, record: Key)
    requires StrategiesCounted(a) && record in a.strategies
    ensures CloseStrategy(a.vault).Ok?
  {
    assert a.strategies != map[];
  }

  /** A closed vault has no request and no strategy left behind. */
  predicate NothingStranded(a: Accounts) {
    a.closed ==> a.deposits == map[] && a.withdrawals == map[] && a.strategies == map[]
  }

  /** Live requests are positive, so a zero pending total leaves none. */
  lemma NoPendingNoRequests(requests: RequestTable, log: Log, side: Side)
    requires Traced(requests, log, side) && Total(Amounts(requests)) == 0
    ensures requests == map[]
  {
    forall user ensures user !in requests {
      assert TracedFor(requests, log, side, user);
      TotalRemove(Amounts(requests), user);
    }
  }

  lemma CloseStrandsNothing(a: Accounts, log: Log, o: Outcome)
    requires Mirrored(a, log) && StrategiesCounted(a)
    requires Traced(a.deposits, log, DepositSide) && Traced(a.withdrawals, log, WithdrawalSide)
    requires CloseVault(a) == Ok(o)
    ensures NothingStranded(o.accounts)
  {
    NoPendingNoRequests(a.deposits, log, DepositSide);
    NoPendingNoRequests(a.withdrawals, log, WithdrawalSide);
    assert a.strategies == map[];
  }

  /** Only closing sets the flag, and nothing that still works on a closed vault opens anything. */
  lemma ClosedStaysClosed(a: Accounts, now: i64, ix: Instruction, o: Outcome)
    requires !ix.VaultClose? && Apply(a, now, ix) == Ok(o)
    ensures o.accounts.closed == a.closed
    ensures a.closed ==> !ix.IsRequest() && o.accounts.strategies == a.strategies
  {
    if ix.IsRequest() {
      TermsUntouched(a, now, ix, o);
    } else if ix.IsOutside() {
      VaultUntouched(a, now, ix, o);
    }
  }

  lemma KeepsNothingStranded(a: Accounts, log: Log, now: i64, ix: Instruction, o: Outcome)
    requires Mirrored(a, log) && StrategiesCounted(a)
    requires Traced(a.deposits, log, DepositSide) && Traced(a.withdrawals, log, WithdrawalSide)
    requires NothingStranded(a) && Apply(a, now, ix) == Ok(o)
    ensures NothingStranded(o.accounts)
  {
    if ix.VaultClose? {
      CloseStrandsNothing(a, log, o);
    } else {
      ClosedStaysClosed(a, now, ix, o);
      if a.closed {
        RequestsUntouched(a, now, ix, o);
      }
    }
  }

  // After the end

  lemma CloseCloses(a: Accounts, now: i64, o: Outcome)
    requires Apply(a, now, VaultClose) == Ok(o)
    ensures !a.closed && o.accounts == a.(closed := true)
  {
  }

  /** A closed vault takes no instruction but those that are not its own, and stays as it is under these. */
  lemma ClosedIsInert(a: Accounts, now: i64, ix: Instruction, o: Outcome)
    requires a.closed && Apply(a, now, ix) == Ok(o)
    ensures ix.ConfigUpdate? || ix.SharesTransfer? || ix.SharesBurn? || ix.TokensMove?
    ensures o.accounts.closed && o.accounts.vault == a.vault && o.accounts.strategies == a.strategies
    ensures o.accounts.deposits == a.deposits && o.accounts.withdrawals == a.withdrawals
    ensures o.accounts.idle == a.idle && o.accounts.depositEscrow == a.depositEscrow && o.accounts.shareEscrow == a.shareEscrow
  {
  }

  /** However a run goes on, a closed vault stays closed and as it was. */
  lemma {:induction false} ClosedForGood(m: Machine, txs: seq<Tx>)
    requires m.accounts.closed
    ensures var a, a' := m.accounts, Run(m, txs).accounts;
      a'.closed && a'.vault == a.vault && a'.strategies == a.strategies
      && a'.deposits == a.deposits && a'.withdrawals == a.withdrawals
      && a'.idle == a.idle && a'.depositEscrow == a.depositEscrow && a'.shareEscrow == a.shareEscrow
    decreases |txs|
  {
    if txs != [] {
      var r := Apply(m.accounts, txs[0].now, txs[0].ix);
      if r.Ok? { ClosedIsInert(m.accounts, txs[0].now, txs[0].ix, r.value); }
      ClosedForGood(Step(m, txs[0]), txs[1..]);
    }
  }
}
