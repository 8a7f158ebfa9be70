/**
 Instructions with the lamports they move: what the protocol says of the vault together with what the payout
 rent needs. An instruction goes through only if both do.
 */
module Transactions {
  import opened Words
  import opened Tables
  import opened VaultModel
  import opened Requests
  import opened Protocol
  import opened PayoutRent

  /** An instruction that went through. */
  datatype Done = Done(accounts: Accounts, bank: Bank, event: Event)

  /** A withdrawal settled for nothing needs no payout account. */
  predicate Pays(e: Event) {
    e.WithdrawalResolved? ==> 0 < e.output
  }

  /** The lamports of an instruction sent by `payer`. */
  function RentStep(b: Bank, t: Terms, ix: Instruction, payer: Key, pays: bool): Result<Bank> {
    match ix
    case DepositCreate(user, _) => OpenRequest(b, t, DepositSide, user)
    case DepositCancel(user) => Cancel(b, t.rent, TokenAccount(user), t.depositMint, DepositSide, user)
    case DepositReject(user) => Settle(b, t.rent, payer, TokenAccount(user), t.depositMint, DepositSide, user, true)
    case DepositResolve(user) => Settle(b, t.rent, payer, ShareAccount(user), t.shareMint, DepositSide, user, true)
    case WithdrawalCreate(user, _) => OpenRequest(b, t, WithdrawalSide, user)
    case WithdrawalCancel(user) => Cancel(b, t.rent, ShareAccount(user), t.shareMint, WithdrawalSide, user)
    case WithdrawalReject(user) => Settle(b, t.rent, payer, ShareAccount(user), t.shareMint, WithdrawalSide, user, true)
    case WithdrawalResolve(user) => Settle(b, t.rent, payer, TokenAccount(user), t.depositMint, WithdrawalSide, user, pays)
    case _ => Ok(b)
  }

  /** Where both sides refuse: the vault's refusal `e` comes before any lamport is asked for. */
  predicate VaultFirst(ix: Instruction, e: Error) {
    match ix
    case DepositCancel(_) => e == AccountNotInitialized
    case WithdrawalCancel(_) => e == AccountNotInitialized
    case DepositReject(_) => BeforePayout(e)
    case DepositResolve(_) => BeforePayout(e)
    case WithdrawalReject(_) => BeforePayout(e)
    case _ => true
  }

  /** Only what the token program refuses comes after the payout account is in place. */
  predicate BeforePayout(e: Error) {
    e != TokenBalanceTooLow && e != TokenSupplyOverflow
  }

  /** Both sides of an instruction go through, or it fails for the first refusal. */
  function Both(ix: Instruction, o: Result<Outcome>, b: Result<Bank>): Result<Done> {
    if o.Err? && (b.Ok? || VaultFirst(ix, o.error)) then Err(o.error) else
    match b case Err(e) => Err(e) case Ok(bank) =>
    Ok(Done(o.value.accounts, bank, o.value.event))
  }

  /**
   A request is opened in stages: its account, the checks `may`, the mint, the payout rent, and at last what
   goes into it.
   */
  function Open(a: Accounts, b: Bank, t: Terms, side: Side, owner: Key, may: Result<()>, o: Result<Outcome>): Result<Done> {
    if a.closed then Err(AccountNotInitialized) else
    match InitRequest(b, t.rent, side, owner) case Err(e) => Err(e) case Ok(_) =>
    match may case Err(e) => Err(e) case Ok(_) =>
    if side == DepositSide && !t.depositMintAllowed then Err(InvalidDepositMintExtension) else
    match OpenRequest(b, t, side, owner) case Err(e) => Err(e) case Ok(bank) =>
    match o case Err(e) => Err(e) case Ok(outcome) =>
    Ok(Done(outcome.accounts, bank, outcome.event))
  }

  /** The instruction as a whole: what it leaves, or the error it reports. */
  function Perform(a: Accounts, b: Bank, now: i64, t: Terms, ix: Instruction, payer: Key): Result<Done> {
    var o := Apply(a, now, ix);
    match ix
    case DepositCreate(user, amount) => Open(a, b, t, DepositSide, user, MayDeposit(a, amount), o)
    case WithdrawalCreate(user, amount) => Open(a, b, t, WithdrawalSide, user, MayWithdraw(a, amount), o)
    case _ => Both(ix, o, RentStep(b, t, ix, payer, o.Ok? ==> Pays(o.value.event)))
  }

  /** An instruction goes through exactly if the vault, the lamports and the deposit mint allow it, and then does both. */
  lemma GoesThrough(a: Accounts, b: Bank, now: i64, t: Terms, ix: Instruction, payer: Key)
    ensures var o := Apply(a, now, ix);
      var rent := RentStep(b, t, ix, payer, o.Ok? ==> Pays(o.value.event));
      var r := Perform(a, b, now, t, ix, payer);
      (r.Ok? <==> o.Ok? && rent.Ok? && (ix.DepositCreate? ==> t.depositMintAllowed))
      && (r.Ok? ==> r.value == Done(o.value.accounts, rent.value, o.value.event))
      && (r.Err? ==> o == Err(r.error) || rent == Err(r.error) || r.error == InvalidDepositMintExtension)
  {
  }

  /** The live request, if any, that a cancellation, rejection or settlement is about. */
  predicate Loaded(a: Accounts, ix: Instruction)
    requires ix.IsRequest()
  {
    !a.closed && if ix.OnDeposit() then ix.user in a.deposits else ix.user in a.withdrawals
  }

  /**
   Which refusal comes first, where there are several. A cancellation asks for lamports as soon as its request is
   loaded; a rejection or a deposit's settlement when all that is left are moves of tokens; a withdrawal's
   settlement after everything else.
   */
  lemma FirstRefusal(a: Accounts, b: Bank, now: i64, t: Terms, ix: Instruction, payer: Key)
    requires ix.IsRequest() && !ix.DepositCreate? && !ix.WithdrawalCreate?
    ensures var o := Apply(a, now, ix);
      var rent := RentStep(b, t, ix, payer, o.Ok? ==> Pays(o.value.event));
      var r := Perform(a, b, now, t, ix, payer);
      (!Loaded(a, ix) ==> r == Err(AccountNotInitialized))
      && (Loaded(a, ix) && (ix.DepositCancel? || ix.WithdrawalCancel?) && rent.Err? ==> r == Err(rent.error))
      && (ix.DepositReject? || ix.WithdrawalReject? || ix.DepositResolve? ==>
            (o.Err? && o.error !in {TokenBalanceTooLow, TokenSupplyOverflow} ==> r == Err(o.error))
            && (rent.Err? && (o.Ok? || o.error in {TokenBalanceTooLow, TokenSupplyOverflow}) ==> r == Err(rent.error)))
      && (ix.WithdrawalResolve? && o.Err? ==> r == Err(o.error))
      && (rent.Ok? && o.Err? ==> r == Err(o.error))
  {
  }

  /** For a new request: its own account comes first, then the checks of the vault, then the mint, then the payout rent. */
  lemma FirstRefusalOfOpening(a: Accounts, b: Bank, now: i64, t: Terms, ix: Instruction, payer: Key)
    requires (ix.DepositCreate? || ix.WithdrawalCreate?) && !a.closed
    ensures var side := if ix.DepositCreate? then DepositSide else WithdrawalSide;
      var account, rent := InitRequest(b, t.rent, side, ix.user), OpenRequest(b, t, side, ix.user);
      var o, r := Apply(a, now, ix), Perform(a, b, now, t, ix, payer);
      var gated := o.Err? && (ix.amount == 0
                              || (if ix.DepositCreate?
                                  then a.config.status != Normal || a.vault.status != Normal || a.vault.depositPaused
                                  else a.config.status == Paused || a.vault.status == Paused || a.vault.withdrawalPaused));
      if account.Err? then r == Err(account.error)
      else if gated then r == Err(o.error)
      else if ix.DepositCreate? && !t.depositMintAllowed then r == Err(InvalidDepositMintExtension)
      else if rent.Err? then r == Err(rent.error)
      else o.Err? ==> r == Err(o.error)
  {
  }
}
