/**
 Order independence: between posts, two orders of the same settlements that both go through leave the
 same accounts and pay every user the same. The NAV stands still, so what a list of settlements does is a
 function of the sets of users it settles (`Settled`).
 */
module SettlementOrder {
  import opened Words
  import opened Tables
  import opened VaultModel
  import opened Requests
  import opened Protocol
  import opened Runs

  predicate IsSettlement(ix: Instruction) {
    ix.DepositResolve? || ix.WithdrawalResolve?
  }

  /** Every transaction of the run is a settlement and goes through. */
  predicate AllSettle(m: Machine, txs: seq<Tx>)
    decreases |txs|
  {
    txs != [] ==>
      IsSettlement(txs[0].ix) && Apply(m.accounts, txs[0].now, txs[0].ix).Ok? && AllSettle(Step(m, txs[0]), txs[1..])
  }

  function Instructions(txs: seq<Tx>): seq<Instruction> {
    seq(|txs|, i requires 0 <= i < |txs| => txs[i].ix)
  }

  /** What settling a request of `a` emits, whenever it happens. */
  function EventOf(a: Accounts, ix: Instruction): Event {
    match ix
    case DepositResolve(user) =>
      if user in a.deposits && user in MintTable(a) && MintTable(a)[user] <= U64_MAX
      then DepositResolved(user, a.deposits[user].amount, MintTable(a)[user], a.vault.navPerShare) else OtherEvent
    case WithdrawalResolve(user) =>
      if user in a.withdrawals && PayTable(a)[user] <= U64_MAX
      then WithdrawalResolved(user, a.withdrawals[user].amount, PayTable(a)[user], a.vault.navPerShare) else OtherEvent
    case _ => OtherEvent
  }

  /** The shares each deposit would mint at the NAV in force. */
  function MintTable(a: Accounts): Table {
    map u | u in a.deposits && 0 < a.vault.navPerShare :: Minted(a.deposits[u].amount, a.vault.navPerShare)
  }

  function Minted(amount: nat, navPerShare: nat): nat
    requires 0 < navPerShare
  {
    SharesFor(amount, navPerShare)
  }

  /** The tokens each withdrawal would be paid at the NAV in force. */
  function PayTable(a: Accounts): Table {
    map u | u in a.withdrawals :: PayoutFor(a.withdrawals[u].amount, a.vault.navPerShare)
  }

  function Positive(t: Table): Table {
    map k | k in t && 0 < t[k] :: t[k]
  }

  function Only(t: Table, keys: set<Key>): Table {
    map k | k in t && k in keys :: t[k]
  }

  function CreditAll(t: Table, credits: Table): Table {
    map k | k in t.Keys + credits.Keys :: Balance(t, k) + Balance(credits, k)
  }

  function Depositors(ixs: seq<Instruction>): set<Key> {
    set ix | ix in ixs && ix.DepositResolve? :: ix.user
  }

  function Withdrawers(ixs: seq<Instruction>): set<Key> {
    set ix | ix in ixs && ix.WithdrawalResolve? :: ix.user
  }

  // The closed form, one table of `b` at a time

  predicate RequestsSettled(a: Accounts, b: Accounts, ds: set<Key>, ws: set<Key>) {
    b.deposits == a.deposits - ds && b.withdrawals == a.withdrawals - ws
  }

  ghost predicate TokensSettled(a: Accounts, b: Accounts, ds: set<Key>, ws: set<Key>) {
    b.tokens == CreditAll(a.tokens, Only(Positive(PayTable(a)), ws))
    && b.idle == a.idle + Total(Only(Amounts(a.deposits), ds)) - Total(Only(PayTable(a), ws))
    && b.depositEscrow == a.depositEscrow - Total(Only(Amounts(a.deposits), ds))
  }

  ghost predicate SharesSettled(a: Accounts, b: Accounts, ds: set<Key>, ws: set<Key>) {
    b.shares == CreditAll(a.shares, Only(MintTable(a), ds))
    && b.shareSupply == a.shareSupply + Total(Only(MintTable(a), ds)) - Total(Only(Amounts(a.withdrawals), ws))
    && b.shareEscrow == a.shareEscrow - Total(Only(Amounts(a.withdrawals), ws))
  }

  ghost predicate VaultSettled(a: Accounts, b: Accounts, ds: set<Key>, ws: set<Key>) {
    b.vault.pendingDeposits == a.vault.pendingDeposits - Total(Only(Amounts(a.deposits), ds))
    && b.vault.pendingWithdrawalShares == a.vault.pendingWithdrawalShares - Total(Only(Amounts(a.withdrawals), ws))
    && b.vault.totalAssets == a.vault.totalAssets + Total(Only(Amounts(a.deposits), ds)) - Total(Only(PayTable(a), ws))
    && b.vault.epochOutflow == a.vault.epochOutflow + Total(Only(PayTable(a), ws))
  }

  /** Nothing else moves. */
  predicate OthersKept(a: Accounts, b: Accounts) {
    b == a.(vault := b.vault, deposits := b.deposits, withdrawals := b.withdrawals, tokens := b.tokens,
            shares := b.shares, shareSupply := b.shareSupply, depositEscrow := b.depositEscrow,
            shareEscrow := b.shareEscrow, idle := b.idle)
    && b.vault == a.vault.(
         pendingDeposits := b.vault.pendingDeposits, pendingWithdrawalShares := b.vault.pendingWithdrawalShares,
         totalAssets := b.vault.totalAssets, epochOutflow := b.vault.epochOutflow)
  }

  /** `b` is `a` with the deposits of `ds` and the withdrawals of `ws` settled. */
  ghost predicate Settled(a: Accounts, b: Accounts, ds: set<Key>, ws: set<Key>) {
    RequestsSettled(a, b, ds, ws) && TokensSettled(a, b, ds, ws) && SharesSettled(a, b, ds, ws)
    && VaultSettled(a, b, ds, ws) && OthersKept(a, b)
  }

  // One more settlement

  lemma OnlyMore(t: Table, keys: set<Key>, k: Key)
    requires k in t && k !in keys
    ensures Only(t, keys + {k}) == Only(t, keys)[k := t[k]]
    ensures Total(Only(t, keys + {k})) == Total(Only(t, keys)) + t[k]
  {
    assert Only(t, keys + {k}) == Only(t, keys)[k := t[k]];
    TotalSet(Only(t, keys), k, t[k]);
  }

  lemma CreditMore(t: Table, credits: Table, k: Key, amount: nat)
    requires k !in credits
    ensures Credit(CreditAll(t, credits), k, amount) == CreditAll(t, credits[k := amount])
  {
  }

  lemma NothingSettled(a: Accounts)
    ensures Settled(a, a, {}, {})
  {
    assert Only(Amounts(a.deposits), {}) == map[] && Only(Amounts(a.withdrawals), {}) == map[];
    assert Only(MintTable(a), {}) == map[] && Only(PayTable(a), {}) == map[] && Only(Positive(PayTable(a)), {}) == map[];
    assert CreditAll(a.tokens, map[]) == a.tokens && CreditAll(a.shares, map[]) == a.shares;
  }

  /** What one deposit settlement does to the accounts. */
  predicate DepositStep(b: Accounts, c: Accounts, user: Key, amount: nat, minted: nat) {
    c.deposits == b.deposits - {user} && c.withdrawals == b.withdrawals
    && c.tokens == b.tokens && c.idle == b.idle + amount && c.depositEscrow == b.depositEscrow - amount
    && c.shares == Credit(b.shares, user, minted) && c.shareSupply == b.shareSupply + minted
    && c.shareEscrow == b.shareEscrow
    && c.vault.pendingDeposits == b.vault.pendingDeposits - amount
    && c.vault.pendingWithdrawalShares == b.vault.pendingWithdrawalShares
    && c.vault.totalAssets == b.vault.totalAssets + amount && c.vault.epochOutflow == b.vault.epochOutflow
    && OthersKept(b, c)
  }

  predicate WithdrawalStep(b: Accounts, c: Accounts, user: Key, shares: nat, paid: nat) {
    c.withdrawals == b.withdrawals - {user} && c.deposits == b.deposits
    && c.tokens == (if 0 < paid then Credit(b.tokens, user, paid) else b.tokens)
    && c.idle == b.idle - paid && c.depositEscrow == b.depositEscrow
    && c.shares == b.shares && c.shareSupply == b.shareSupply - shares && c.shareEscrow == b.shareEscrow - shares
    && c.vault.pendingDeposits == b.vault.pendingDeposits
    && c.vault.pendingWithdrawalShares == b.vault.pendingWithdrawalShares - shares
    && c.vault.totalAssets == b.vault.totalAssets - paid && c.vault.epochOutflow == b.vault.epochOutflow + paid
    && OthersKept(b, c)
  }

  lemma DepositSteps(b: Accounts, user: Key, o: Outcome)
    requires ResolveDepositRequest(b, user) == Ok(o)
    ensures user in b.deposits && user in MintTable(b)
    ensures var amount, minted := b.deposits[user].amount, MintTable(b)[user];
      0 <= minted <= U64_MAX && DepositStep(b, o.accounts, user, amount, minted)
      && o.event == DepositResolved(user, amount, minted, b.vault.navPerShare)
  {
  }

  lemma WithdrawalSteps(b: Accounts, user: Key, o: Outcome)
    requires ResolveWithdrawalRequest(b, user) == Ok(o)
    ensures user in b.withdrawals
    ensures var shares, paid := b.withdrawals[user].amount, PayTable(b)[user];
      0 <= paid <= U64_MAX && WithdrawalStep(b, o.accounts, user, shares, paid)
      && o.event == WithdrawalResolved(user, shares, paid, b.vault.navPerShare)
  {
  }

  lemma TokensAfterDeposit(a: Accounts, b: Accounts, c: Accounts, ds: set<Key>, ws: set<Key>, user: Key, minted: nat)
    requires user in a.deposits && user !in ds && DepositStep(b, c, user, a.deposits[user].amount, minted)
    requires TokensSettled(a, b, ds, ws) && VaultSettled(a, b, ds, ws)
    ensures TokensSettled(a, c, ds + {user}, ws) && VaultSettled(a, c, ds + {user}, ws)
  {
    OnlyMore(Amounts(a.deposits), ds, user);
  }

  lemma SharesAfterDeposit(a: Accounts, b: Accounts, c: Accounts, ds: set<Key>, ws: set<Key>, user: Key, amount: nat)
    requires user in MintTable(a) && user !in ds && DepositStep(b, c, user, amount, MintTable(a)[user])
    requires SharesSettled(a, b, ds, ws)
    ensures SharesSettled(a, c, ds + {user}, ws)
  {
    OnlyMore(MintTable(a), ds, user);
    CreditMore(a.shares, Only(MintTable(a), ds), user, MintTable(a)[user]);
  }

  lemma RequestsAfter(before: RequestTable, after: RequestTable, keys: set<Key>, user: Key)
    requires after == before - keys && user in after
    ensures user in before && user !in keys && after[user] == before[user]
    ensures after - {user} == before - (keys + {user})
  {
  }

  lemma DepositSettles(a: Accounts, b: Accounts, c: Accounts, ds: set<Key>, ws: set<Key>, user: Key)
    requires Settled(a, b, ds, ws) && user in b.deposits && user in MintTable(b)
    requires DepositStep(b, c, user, b.deposits[user].amount, MintTable(b)[user])
    ensures Settled(a, c, ds + {user}, ws)
    ensures user in a.deposits && a.deposits[user] == b.deposits[user] && MintTable(a)[user] == MintTable(b)[user]
  {
    RequestsAfter(a.deposits, b.deposits, ds, user);
    TokensAfterDeposit(a, b, c, ds, ws, user, MintTable(b)[user]);
    SharesAfterDeposit(a, b, c, ds, ws, user, b.deposits[user].amount);
  }

  lemma VaultAfterWithdrawal(a: Accounts, b: Accounts, c: Accounts, ds: set<Key>, ws: set<Key>, user: Key)
    requires user in a.withdrawals && user !in ws
    requires WithdrawalStep(b, c, user, a.withdrawals[user].amount, PayTable(a)[user])
    requires SharesSettled(a, b, ds, ws) && VaultSettled(a, b, ds, ws)
    ensures SharesSettled(a, c, ds, ws + {user}) && VaultSettled(a, c, ds, ws + {user})
  {
    OnlyMore(Amounts(a.withdrawals), ws, user);
    OnlyMore(PayTable(a), ws, user);
  }

  lemma TokensAfterWithdrawal(a: Accounts, b: Accounts, c: Accounts, ds: set<Key>, ws: set<Key>, user: Key, shares: nat)
    requires user in a.withdrawals && user !in ws
    requires WithdrawalStep(b, c, user, shares, PayTable(a)[user])
    requires TokensSettled(a, b, ds, ws)
    ensures TokensSettled(a, c, ds, ws + {user})
  {
    OnlyMore(PayTable(a), ws, user);
    var paid := Positive(PayTable(a));
    if 0 < PayTable(a)[user] {
      OnlyMore(paid, ws, user);
      CreditMore(a.tokens, Only(paid, ws), user, PayTable(a)[user]);
    } else {
      assert Only(paid, ws + {user}) == Only(paid, ws);
    }
  }

  lemma WithdrawalSettles(a: Accounts, b: Accounts, c: Accounts, ds: set<Key>, ws: set<Key>, user: Key)
    requires Settled(a, b, ds, ws) && user in b.withdrawals
    requires WithdrawalStep(b, c, user, b.withdrawals[user].amount, PayTable(b)[user])
    ensures Settled(a, c, ds, ws + {user})
    ensures user in a.withdrawals && a.withdrawals[user] == b.withdrawals[user]
  {
    RequestsAfter(a.withdrawals, b.withdrawals, ws, user);
    VaultAfterWithdrawal(a, b, c, ds, ws, user);
    TokensAfterWithdrawal(a, b, c, ds, ws, user, b.withdrawals[user].amount);
  }

  lemma OneMoreDeposit(a: Accounts, b: Accounts, ds: set<Key>, ws: set<Key>, user: Key, o: Outcome)
    requires Settled(a, b, ds, ws) && ResolveDepositRequest(b, user) == Ok(o)
    ensures Settled(a, o.accounts, ds + {user}, ws)
    ensures o.event == EventOf(a, DepositResolve(user))
  {
    DepositSteps(b, user, o);
    DepositSettles(a, b, o.accounts, ds, ws, user);
  }

  lemma OneMoreWithdrawal(a: Accounts, b: Accounts, ds: set<Key>, ws: set<Key>, user: Key, o: Outcome)
    requires Settled(a, b, ds, ws) && ResolveWithdrawalRequest(b, user) == Ok(o)
    ensures Settled(a, o.accounts, ds, ws + {user})
    ensures o.event == EventOf(a, WithdrawalResolve(user))
  {
    WithdrawalSteps(b, user, o);
    WithdrawalSettles(a, b, o.accounts, ds, ws, user);
    SamePayout(a, b, user);
  }

  lemma SamePayout(a: Accounts, b: Accounts, user: Key)
    requires user in a.withdrawals && user in b.withdrawals && a.withdrawals[user] == b.withdrawals[user]
    requires a.vault.navPerShare == b.vault.navPerShare && PayTable(b)[user] <= U64_MAX
    ensures EventOf(a, WithdrawalResolve(user))
            == WithdrawalResolved(user, b.withdrawals[user].amount, PayTable(b)[user], b.vault.navPerShare)
  {
  }

  function DepositorOf(ix: Instruction): set<Key> {
    if ix.DepositResolve? then {ix.user} else {}
  }

  function WithdrawerOf(ix: Instruction): set<Key> {
    if ix.WithdrawalResolve? then {ix.user} else {}
  }

  lemma StepSettles(a: Accounts, m: Machine, tx: Tx, ds: set<Key>, ws: set<Key>)
    requires Settled(a, m.accounts, ds, ws)
    requires IsSettlement(tx.ix) && Apply(m.accounts, tx.now, tx.ix).Ok?
    ensures Settled(a, Step(m, tx).accounts, ds + DepositorOf(tx.ix), ws + WithdrawerOf(tx.ix))
    ensures Step(m, tx).log == m.log + [Entry(tx.now, EventOf(a, tx.ix))]
  {
    var o := Apply(m.accounts, tx.now, tx.ix).value;
    assert ds + {} == ds && ws + {} == ws;
    if tx.ix.DepositResolve? {
      OneMoreDeposit(a, m.accounts, ds, ws, tx.ix.user, o);
    } else {
      OneMoreWithdrawal(a, m.accounts, ds, ws, tx.ix.user, o);
    }
  }

  lemma {:induction false} UsersOfFirst(txs: seq<Tx>, ds: set<Key>, ws: set<Key>)
    requires txs != []
    ensures ds + Depositors(Instructions(txs)) == ds + DepositorOf(txs[0].ix) + Depositors(Instructions(txs[1..]))
    ensures ws + Withdrawers(Instructions(txs)) == ws + WithdrawerOf(txs[0].ix) + Withdrawers(Instructions(txs[1..]))
  {
    assert Instructions(txs) == [txs[0].ix] + Instructions(txs[1..]);
  }

  /** Every run of settlements ends in the closed form of its users. */
  lemma {:induction false} RunSettles(a: Accounts, m: Machine, txs: seq<Tx>, ds: set<Key>, ws: set<Key>)
    requires Settled(a, m.accounts, ds, ws) && AllSettle(m, txs)
    ensures Settled(a, Run(m, txs).accounts, ds + Depositors(Instructions(txs)), ws + Withdrawers(Instructions(txs)))
    decreases |txs|
  {
    if txs == [] {
      assert ds + Depositors(Instructions(txs)) == ds && ws + Withdrawers(Instructions(txs)) == ws;
    } else {
      StepSettles(a, m, txs[0], ds, ws);
      RunSettles(a, Step(m, txs[0]), txs[1..], ds + DepositorOf(txs[0].ix), ws + WithdrawerOf(txs[0].ix));
      UsersOfFirst(txs, ds, ws);
    }
  }

  /** The log entries of a run of settlements that starts from `a`. */
  function Entries(a: Accounts, txs: seq<Tx>): Log {
    seq(|txs|, i requires 0 <= i < |txs| => Entry(txs[i].now, EventOf(a, txs[i].ix)))
  }

  lemma {:induction false} EntriesOfFirst(a: Accounts, log: Log, txs: seq<Tx>)
    requires txs != []
    ensures log + Entries(a, txs) == log + [Entry(txs[0].now, EventOf(a, txs[0].ix))] + Entries(a, txs[1..])
  {
    assert Entries(a, txs) == [Entry(txs[0].now, EventOf(a, txs[0].ix))] + Entries(a, txs[1..]);
  }

  /** What it emits is determined by the accounts it started from. */
  lemma {:induction false} RunEmits(a: Accounts, m: Machine, txs: seq<Tx>, ds: set<Key>, ws: set<Key>)
    requires Settled(a, m.accounts, ds, ws) && AllSettle(m, txs)
    ensures Run(m, txs).log == m.log + Entries(a, txs)
    decreases |txs|
  {
    if txs != [] {
      StepSettles(a, m, txs[0], ds, ws);
      RunEmits(a, Step(m, txs[0]), txs[1..], ds + DepositorOf(txs[0].ix), ws + WithdrawerOf(txs[0].ix));
      EntriesOfFirst(a, m.log, txs);
    }
  }

  lemma SettledIsUnique(a: Accounts, b: Accounts, c: Accounts, ds: set<Key>, ws: set<Key>)
    requires Settled(a, b, ds, ws) && Settled(a, c, ds, ws)
    ensures b == c
  {
  }

  lemma {:induction false} SameUsers(ixs: seq<Instruction>, ixs': seq<Instruction>)
    requires multiset(ixs) == multiset(ixs')
    ensures Depositors(ixs) == Depositors(ixs') && Withdrawers(ixs) == Withdrawers(ixs')
  {
    assert forall ix :: ix in ixs <==> ix in multiset(ixs);
    assert forall ix :: ix in ixs' <==> ix in multiset(ixs');
  }

  /**
   Two orders of the same settlements that both go through, whatever their block times, leave exactly the
   same accounts: vault, supply, escrows, idle balance and every wallet. Each settlement emits, and so pays
   or mints, what the starting accounts determine, whatever its place in the order.
   */
  lemma {:induction false} OrderDoesNotMatter(m: Machine, txs: seq<Tx>, txs': seq<Tx>)
    requires AllSettle(m, txs) && AllSettle(m, txs')
    requires multiset(Instructions(txs)) == multiset(Instructions(txs'))
    ensures Run(m, txs).accounts == Run(m, txs').accounts
    ensures Run(m, txs).log == m.log + Entries(m.accounts, txs)
    ensures Run(m, txs').log == m.log + Entries(m.accounts, txs')
  {
    NothingSettled(m.accounts);
    RunSettles(m.accounts, m, txs, {}, {});
    RunSettles(m.accounts, m, txs', {}, {});
    RunEmits(m.accounts, m, txs, {}, {});
    RunEmits(m.accounts, m, txs', {}, {});
    SameUsers(Instructions(txs), Instructions(txs'));
    SettledIsUnique(m.accounts, Run(m, txs).accounts, Run(m, txs').accounts,
                    {} + Depositors(Instructions(txs)), {} + Withdrawers(Instructions(txs)));
  }
}
