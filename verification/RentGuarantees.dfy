/**
 What the program guarantees about lamports in every state that a run with lamports reaches: settling and
 rejecting are free, fail for want of money to front and for no other reason of theirs, and no lamport is lost.
 */
module RentGuarantees {
  import opened Words
  import opened Tables
  import opened Requests
  import opened Protocol
  import opened Runs
  import opened Guarantees
  import opened PayoutRent
  import opened Transactions
  import opened RentRuns

  /** A settlement or rejection: someone other than the owner may send it, and it closes the request. */
  predicate ClosesForOwner(ix: Instruction) {
    ix.DepositReject? || ix.DepositResolve? || ix.WithdrawalReject? || ix.WithdrawalResolve?
  }

  /** Where the owner is paid: shares for a deposit settled or a withdrawal rejected, tokens otherwise. */
  function PayoutIn(ix: Instruction): Address
    requires ix.IsRequest()
  {
    if ix.DepositResolve? || ix.WithdrawalReject? || ix.WithdrawalCancel? then ShareAccount(ix.user) else TokenAccount(ix.user)
  }

  /** A withdrawal that was settled for nothing. */
  predicate PaysNothing(ix: Instruction, e: Event) {
    ix.WithdrawalResolve? && e.WithdrawalResolved? && e.output == 0
  }

  /** What whoever sends the instruction has to front. */
  function ToFront(b: Bank, t: Terms, ix: Instruction): nat
    requires ix.IsRequest()
  {
    match PayoutAccountLen(MintOf(t, PayoutIn(ix)))
    case Ok(len) => Shortfall(b, t.rent, PayoutIn(ix), len)
    case Err(_) => 0
  }

  lemma RequestExists(w: World, t: Terms, ix: Instruction)
    requires WorldReachable(w, t) && ix.IsRequest()
    requires ix.user in (if ix.OnDeposit() then w.machine.accounts.deposits else w.machine.accounts.withdrawals)
    ensures Reachable(w.machine) && RequestRent(w.bank, t, RequestIn(ix))
    ensures PayoutAccountLen(t.shareMint).Ok? && PayoutAccountLen(t.depositMint).Ok?
  {
    WorldIsGood(w, t);
    assert RequestIn(ix) in w.bank.created;
  }

  /** The lamports of a settlement or rejection of a live request never fail but for want of the money to front. */
  lemma FrontingIsEnough(w: World, t: Terms, ix: Instruction, payer: Key, pays: bool)
    requires WorldReachable(w, t) && ClosesForOwner(ix)
    requires ix.user in (if ix.OnDeposit() then w.machine.accounts.deposits else w.machine.accounts.withdrawals)
    ensures RentStep(w.bank, t, ix, payer, pays).Ok? <==>
            (!pays && ix.WithdrawalResolve?) || ToFront(w.bank, t, ix) <= Balance(w.bank.lamports, Wallet(payer))
  {
    RequestExists(w, t, ix);
    PayoutWorks(w.bank, t.rent, payer, PayoutIn(ix), MintOf(t, PayoutIn(ix)), RequestIn(ix));
  }

  /**
   Settling or rejecting a live request goes through exactly if the vault allows it and the sender can front
   what the payout account is short of, which is nothing if the account exists or nothing is paid.
   */
  lemma ClosingNeedsFronting(w: World, t: Terms, now: i64, ix: Instruction, payer: Key)
    requires WorldReachable(w, t) && ClosesForOwner(ix)
    requires ix.user in (if ix.OnDeposit() then w.machine.accounts.deposits else w.machine.accounts.withdrawals)
    ensures var o := Apply(w.machine.accounts, now, ix);
      Perform(w.machine.accounts, w.bank, now, t, ix, payer).Ok? <==>
      o.Ok? && (PaysNothing(ix, o.value.event)
                || ToFront(w.bank, t, ix) <= Balance(w.bank.lamports, Wallet(payer)))
  {
    var o := Apply(w.machine.accounts, now, ix);
    if o.Ok? {
      ClosedIsLive(w.machine.accounts, now, ix, o.value);
      FrontingIsEnough(w, t, ix, payer, Pays(o.value.event));
    }
  }

  /** Cancelling goes through exactly if the vault allows it and the owner can pay for a payout account it has closed. */
  lemma CancellingNeedsPayment(w: World, t: Terms, now: i64, ix: Instruction, payer: Key)
    requires WorldReachable(w, t) && (ix.DepositCancel? || ix.WithdrawalCancel?)
    requires ix.user in (if ix.OnDeposit() then w.machine.accounts.deposits else w.machine.accounts.withdrawals)
    ensures Perform(w.machine.accounts, w.bank, now, t, ix, payer).Ok? <==>
            Apply(w.machine.accounts, now, ix).Ok? && ToFront(w.bank, t, ix) <= Balance(w.bank.lamports, Wallet(ix.user))
  {
    RequestExists(w, t, ix);
    GoesThrough(w.machine.accounts, w.bank, now, t, ix, payer);
  }

  /** What a user pays to open a request: what its address lacks of its own rent, and the payout rent. */
  function ToOpen(b: Bank, t: Terms, request: Address): Result<nat> {
    match PayoutRentOf(t) case Err(e) => Err(e) case Ok(escrow) =>
    Ok(Shortfall(b, t.rent, request, REQUEST_LEN) + escrow)
  }

  /**
   A request goes through exactly if the vault accepts it and the user can pay for opening it; adding to a live
   one is free.
   */
  lemma OpeningNeedsPayment(w: World, t: Terms, now: i64, ix: Instruction, payer: Key)
    requires WorldReachable(w, t) && (ix.DepositCreate? || ix.WithdrawalCreate?)
    ensures var live := ix.user in (if ix.OnDeposit() then w.machine.accounts.deposits else w.machine.accounts.withdrawals);
      var toOpen := ToOpen(w.bank, t, RequestIn(ix));
      Perform(w.machine.accounts, w.bank, now, t, ix, payer).Ok? <==>
      Apply(w.machine.accounts, now, ix).Ok? && (ix.DepositCreate? ==> t.depositMintAllowed)
      && (live || (toOpen.Ok? && toOpen.value <= Balance(w.bank.lamports, Wallet(ix.user))))
  {
    GoesThrough(w.machine.accounts, w.bank, now, t, ix, payer);
    AccountIsLive(w, t, RequestIn(ix));
    OpeningWorks(w.bank, t, RequestIn(ix).side, ix.user);
  }

  /** The live requests are the request accounts that exist. */
  lemma AccountIsLive(w: World, t: Terms, request: Address)
    requires WorldReachable(w, t) && request.RequestOf?
    ensures request in w.bank.created <==>
            request.key in (if request.side == DepositSide then w.machine.accounts.deposits else w.machine.accounts.withdrawals)
  {
    WorldIsGood(w, t);
  }

  lemma OpeningWorks(b: Bank, t: Terms, side: Side, owner: Key)
    ensures var toOpen := ToOpen(b, t, RequestOf(side, owner));
      OpenRequest(b, t, side, owner).Ok? <==>
      RequestOf(side, owner) in b.created || (toOpen.Ok? && toOpen.value <= Balance(b.lamports, Wallet(owner)))
  {
  }

  /** An admin with enough to front can reject any live deposit, whatever the gates say, and returns exactly what was put in. */
  lemma {:induction false} RejectionReturnsTokens(w: World, t: Terms, now: i64, user: Key, payer: Key)
    requires WorldReachable(w, t) && user in w.machine.accounts.deposits
    ensures var refund := Contributed(w.machine.log, DepositSide, user);
      var r := Perform(w.machine.accounts, w.bank, now, t, DepositReject(user), payer);
      (r.Ok? <==> ToFront(w.bank, t, DepositReject(user)) <= Balance(w.bank.lamports, Wallet(payer)))
      && (r.Ok? ==> r.value.accounts.tokens == Credit(w.machine.accounts.tokens, user, refund)
                    && r.value.accounts.deposits == w.machine.accounts.deposits - {user})
  {
    RequestExists(w, t, DepositReject(user));
    ClosingNeedsFronting(w, t, now, DepositReject(user), payer);
    RejectReturnsTokens(w.machine, now, user);
  }

  lemma {:induction false} RejectionReturnsShares(w: World, t: Terms, now: i64, user: Key, payer: Key)
    requires WorldReachable(w, t) && user in w.machine.accounts.withdrawals
    ensures var refund := Contributed(w.machine.log, WithdrawalSide, user);
      var r := Perform(w.machine.accounts, w.bank, now, t, WithdrawalReject(user), payer);
      (r.Ok? <==> ToFront(w.bank, t, WithdrawalReject(user)) <= Balance(w.bank.lamports, Wallet(payer)))
      && (r.Ok? ==> r.value.accounts.shares == Credit(w.machine.accounts.shares, user, refund)
                    && r.value.accounts.withdrawals == w.machine.accounts.withdrawals - {user})
  {
    RequestExists(w, t, WithdrawalReject(user));
    ClosingNeedsFronting(w, t, now, WithdrawalReject(user), payer);
    RejectReturnsShares(w.machine, now, user);
  }

  /**
   Over all runs settlement is free: whoever settles or rejects ends with the lamports it began with, and the
   owner gets everything the request held but what its payout account was short of.
   */
  lemma SettlementIsAlwaysFree(w: World, t: Terms, now: i64, ix: Instruction, payer: Key, d: Done)
    requires WorldReachable(w, t) && ClosesForOwner(ix)
    requires Perform(w.machine.accounts, w.bank, now, t, ix, payer) == Ok(d)
    ensures var held := Balance(w.bank.lamports, RequestIn(ix));
      var spent := if PaysNothing(ix, d.event) then 0 else ToFront(w.bank, t, ix);
      (payer != ix.user ==> Balance(d.bank.lamports, Wallet(payer)) == Balance(w.bank.lamports, Wallet(payer)))
      && Balance(d.bank.lamports, Wallet(ix.user)) == Balance(w.bank.lamports, Wallet(ix.user)) + held - spent
      && t.rent.MinimumBalance(REQUEST_LEN) + Balance(w.bank.escrows, RequestIn(ix)) <= held
      && spent <= Balance(w.bank.escrows, RequestIn(ix))
  {
    ClosedIsLive(w.machine.accounts, now, ix, Apply(w.machine.accounts, now, ix).value);
    RequestExists(w, t, ix);
    StepIsFree(w.bank, t, ix, payer, Pays(d.event), d.bank);
  }

  /** A request that closes was live; what it is paid for is told from the event. */
  lemma ClosedIsLive(a: Accounts, now: i64, ix: Instruction, o: Outcome)
    requires ClosesForOwner(ix) && Apply(a, now, ix) == Ok(o)
    ensures ix.user in (if ix.OnDeposit() then a.deposits else a.withdrawals)
    ensures !ix.WithdrawalResolve? ==> Pays(o.event)
    ensures Pays(o.event) <==> !PaysNothing(ix, o.event)
  {
  }

  lemma StepIsFree(b: Bank, t: Terms, ix: Instruction, payer: Key, pays: bool, b': Bank)
    requires ClosesForOwner(ix) && RentStep(b, t, ix, payer, pays) == Ok(b') && (ix.WithdrawalResolve? || pays)
    requires RequestRent(b, t, RequestIn(ix))
    ensures var held, spent := Balance(b.lamports, RequestIn(ix)), if pays then ToFront(b, t, ix) else 0;
      (payer != ix.user ==> Balance(b'.lamports, Wallet(payer)) == Balance(b.lamports, Wallet(payer)))
      && Balance(b'.lamports, Wallet(ix.user)) == Balance(b.lamports, Wallet(ix.user)) + held - spent
      && t.rent.MinimumBalance(REQUEST_LEN) + Balance(b.escrows, RequestIn(ix)) <= held
      && spent <= Balance(b.escrows, RequestIn(ix))
  {
    SettlementIsFree(b, t.rent, payer, PayoutIn(ix), MintOf(t, PayoutIn(ix)),
                     if ix.OnDeposit() then DepositSide else WithdrawalSide, ix.user, pays);
  }

  // Conservation

  lemma RentStepConserves(b: Bank, t: Terms, ix: Instruction, payer: Key, pays: bool)
    requires RentStep(b, t, ix, payer, pays).Ok?
    ensures Total(RentStep(b, t, ix, payer, pays).value.lamports) == Total(b.lamports)
  {
    match ix
    case DepositCreate(user, _) => OpeningConserves(b, t, DepositSide, user);
    case WithdrawalCreate(user, _) => OpeningConserves(b, t, WithdrawalSide, user);
    case DepositCancel(user) => CancellingConserves(b, t.rent, TokenAccount(user), t.depositMint, DepositSide, user);
    case WithdrawalCancel(user) => CancellingConserves(b, t.rent, ShareAccount(user), t.shareMint, WithdrawalSide, user);
    case DepositReject(user) =>
      SettlingConserves(b, t.rent, payer, TokenAccount(user), t.depositMint, DepositSide, user, true);
    case DepositResolve(user) =>
      SettlingConserves(b, t.rent, payer, ShareAccount(user), t.shareMint, DepositSide, user, true);
    case WithdrawalReject(user) =>
      SettlingConserves(b, t.rent, payer, ShareAccount(user), t.shareMint, WithdrawalSide, user, true);
    case WithdrawalResolve(user) =>
      SettlingConserves(b, t.rent, payer, TokenAccount(user), t.depositMint, WithdrawalSide, user, pays);
    case _ =>
  }

  lemma StepConserves(w: World, t: Terms, move: RentRuns.Move)
    ensures Total(WorldStep(w, t, move).bank.lamports) == Total(w.bank.lamports)
  {
    match move
    case Instruct(now, ix, payer, allowed) =>
      var terms := t.(depositMintAllowed := allowed);
      var o := Apply(w.machine.accounts, now, ix);
      if Perform(w.machine.accounts, w.bank, now, terms, ix, payer).Ok? {
        RentStepConserves(w.bank, terms, ix, payer, Pays(o.value.event));
      }
    case Send(from, to, amount) =>
      if PayoutRent.Move(w.bank, Wallet(from), to, amount).Ok? { MoveConserves(w.bank, Wallet(from), to, amount); }
    case OpenAccount(payer, account) =>
      if IsPayout(account) && account !in w.bank.created
         && InitPayout(w.bank, t.rent, payer, account, MintOf(t, account)).Ok? {
        CreationConserves(w.bank, t.rent, Wallet(payer), account, PayoutAccountLen(MintOf(t, account)).value);
      }
    case CloseAccount(account) => ClosingConserves(w.bank, account, Wallet(account.key));
  }

  /** No run creates or loses a lamport. */
  lemma {:induction false} LamportsAreConserved(w: World, t: Terms, moves: seq<RentRuns.Move>)
    ensures Total(WorldRun(w, t, moves).bank.lamports) == Total(w.bank.lamports)
    decreases |moves|
  {
    if moves != [] {
      StepConserves(w, t, moves[0]);
      LamportsAreConserved(WorldStep(w, t, moves[0]), t, moves[1..]);
    }
  }
}
