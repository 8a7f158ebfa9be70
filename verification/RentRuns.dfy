/**
 Runs with lamports. Between transactions of the program anyone may send lamports anywhere and open or close
 token accounts. In every state that such a run reaches, each live request still holds its rent and an escrow
 that covers either payout, so settling and rejecting are free and need no more than the money to front.
 */
module RentRuns {
  import opened Words
  import opened Tables
  import opened Requests
  import opened Protocol
  import opened Runs
  import opened Frames
  import opened PayoutRent
  import opened Transactions

  datatype World = World(machine: Machine, bank: Bank)

  datatype Move =
    | Instruct(now: i64, ix: Instruction, payer: Key, depositMintAllowed: bool)
      // not instructions of the program
    | Send(from: Key, to: Address, amount: nat)
    | OpenAccount(payer: Key, account: Address)
    | CloseAccount(account: Address)

  /** The mint of a token account of a user. */
  function MintOf(t: Terms, account: Address): Mint {
    if account.ShareAccount? then t.shareMint else t.depositMint
  }

  function WorldStep(w: World, t: Terms, move: Move): World {
    match move
    case Instruct(now, ix, payer, allowed) =>
      (match Perform(w.machine.accounts, w.bank, now, t.(depositMintAllowed := allowed), ix, payer)
       case Ok(d) => World(Machine(d.accounts, now, w.machine.log + [Entry(now, d.event)]), d.bank)
       case Err(_) => w)
    case Send(from, to, amount) =>
      (match PayoutRent.Move(w.bank, Wallet(from), to, amount)
       case Ok(bank) => w.(bank := bank)
       case Err(_) => w)
    case OpenAccount(payer, account) =>
      if !IsPayout(account) then w else
      (match InitPayout(w.bank, t.rent, payer, account, MintOf(t, account))
       case Ok(bank) => w.(bank := bank)
       case Err(_) => w)
    case CloseAccount(account) =>
      if !IsPayout(account) then w else w.(bank := Close(w.bank, account, Wallet(account.key)))
  }

  function WorldRun(w: World, t: Terms, moves: seq<Move>): World
    decreases |moves|
  {
    if moves == [] then w else WorldRun(WorldStep(w, t, moves[0]), t, moves[1..])
  }

  /** Block times never go back. */
  predicate MovesOrdered(start: i64, moves: seq<Move>)
    decreases |moves|
  {
    moves != [] ==>
      if moves[0].Instruct? then start <= moves[0].now && MovesOrdered(moves[0].now, moves[1..])
      else MovesOrdered(start, moves[1..])
  }

  /** Before the vault opens, none of its requests exists. */
  predicate NoRequests(b: Bank) {
    forall account :: account in b.created ==> !account.RequestOf?
  }

  ghost predicate WorldReachedBy(w: World, t: Terms, g: Genesis, bank: Bank, moves: seq<Move>) {
    g.Valid() && NoRequests(bank) && MovesOrdered(g.vault.currentTs, moves)
    && w == WorldRun(World(g.Start(), bank), t, moves)
  }

  ghost predicate WorldReachable(w: World, t: Terms) {
    exists g, bank, moves :: WorldReachedBy(w, t, g, bank, moves)
  }

  // The vault of a world is that of a run

  /** The machine of a world moves by the transactions that go through. */
  lemma MachineSteps(w: World, t: Terms, move: Move)
    ensures var m := WorldStep(w, t, move).machine;
      m == w.machine || (move.Instruct? && m == Step(w.machine, Tx(move.now, move.ix)))
  {
  }

  // What the rents keep

  predicate RequestRent(b: Bank, t: Terms, request: Address) {
    RentHeld(b, t.rent, request) && EscrowCovers(b, t.rent, t.shareMint, request)
    && EscrowCovers(b, t.rent, t.depositMint, request)
  }

  /** Live requests are the request accounts that exist, and each holds its rent. */
  ghost predicate RentsHeld(a: Accounts, b: Bank, t: Terms) {
    (forall user :: user in a.deposits <==> RequestOf(DepositSide, user) in b.created)
    && (forall user :: user in a.withdrawals <==> RequestOf(WithdrawalSide, user) in b.created)
    && forall request: Address :: request.RequestOf? && request in b.created ==> RequestRent(b, t, request)
  }

  /** Requests other than `request` lose nothing. */
  ghost predicate OthersHold(b: Bank, b': Bank, request: Address) {
    forall other: Address :: other.RequestOf? && other != request ==>
      (other in b'.created <==> other in b.created)
      && Balance(b'.escrows, other) == Balance(b.escrows, other)
      && Balance(b.lamports, other) <= Balance(b'.lamports, other)
  }

  lemma OpeningKeepsOthers(b: Bank, t: Terms, side: Side, owner: Key)
    requires OpenRequest(b, t, side, owner).Ok?
    ensures OthersHold(b, OpenRequest(b, t, side, owner).value, RequestOf(side, owner))
  {
  }

  lemma PayoutKeepsOthers(b: Bank, rent: Rent, payer: Key, payout: Address, mint: Mint, request: Address)
    requires IsPayout(payout) && CreatePayout(b, rent, Wallet(payer), payout, mint, request).Ok?
    ensures OthersHold(b, CreatePayout(b, rent, Wallet(payer), payout, mint, request).value, request)
  {
  }

  lemma ClosingKeepsOthers(b: Bank, account: Address, owner: Key)
    requires !account.Wallet?
    ensures OthersHold(b, Close(b, account, Wallet(owner)), account)
    ensures account !in Close(b, account, Wallet(owner)).created
  {
  }

  lemma SettlingKeepsOthers(b: Bank, rent: Rent, payer: Key, payout: Address, mint: Mint, side: Side, owner: Key, pays: bool)
    requires IsPayout(payout) && Settle(b, rent, payer, payout, mint, side, owner, pays).Ok?
    ensures var b' := Settle(b, rent, payer, payout, mint, side, owner, pays).value;
      OthersHold(b, b', RequestOf(side, owner)) && RequestOf(side, owner) !in b'.created
  {
    var request := RequestOf(side, owner);
    if pays {
      PayoutKeepsOthers(b, rent, payer, payout, mint, request);
      ClosingKeepsOthers(CreatePayout(b, rent, Wallet(payer), payout, mint, request).value, request, owner);
    } else {
      ClosingKeepsOthers(b, request, owner);
    }
  }

  lemma InitKeepsOthers(b: Bank, rent: Rent, payer: Key, payout: Address, mint: Mint, request: Address)
    requires IsPayout(payout) && InitPayout(b, rent, payer, payout, mint).Ok?
    ensures var b' := InitPayout(b, rent, payer, payout, mint).value;
      OthersHold(b, b', request) && OthersHold(b, b', payout)
  {
  }

  lemma CancellingKeepsOthers(b: Bank, rent: Rent, payout: Address, mint: Mint, side: Side, owner: Key)
    requires IsPayout(payout) && Cancel(b, rent, payout, mint, side, owner).Ok?
    ensures var b' := Cancel(b, rent, payout, mint, side, owner).value;
      OthersHold(b, b', RequestOf(side, owner)) && RequestOf(side, owner) !in b'.created
  {
    InitKeepsOthers(b, rent, owner, payout, mint, RequestOf(side, owner));
    ClosingKeepsOthers(InitPayout(b, rent, owner, payout, mint).value, RequestOf(side, owner), owner);
  }

  /** Requests that lost nothing still hold their rent. */
  lemma RentsCarry(b: Bank, b': Bank, t: Terms, request: Address)
    requires OthersHold(b, b', request)
    requires forall r: Address :: r.RequestOf? && r in b.created ==> RequestRent(b, t, r)
    requires request.RequestOf? && request in b'.created ==> RequestRent(b', t, request)
    ensures forall r: Address :: r.RequestOf? && r in b'.created ==> RequestRent(b', t, r)
  {
    forall r: Address | r.RequestOf? && r in b'.created ensures RequestRent(b', t, r) {
      if r != request {
        assert RequestRent(b, t, r);
      }
    }
  }

  // One step

  /** The request an instruction is about. */
  function RequestIn(ix: Instruction): Address
    requires ix.IsRequest()
  {
    RequestOf(if ix.OnDeposit() then DepositSide else WithdrawalSide, ix.user)
  }

  lemma RentStepEffect(b: Bank, t: Terms, ix: Instruction, payer: Key, pays: bool)
    requires ix.IsRequest() && RentStep(b, t, ix, payer, pays).Ok?
    ensures var b' := RentStep(b, t, ix, payer, pays).value;
      OthersHold(b, b', RequestIn(ix))
      && (RequestIn(ix) in b'.created <==> ix.DepositCreate? || ix.WithdrawalCreate?)
      && (RequestIn(ix) in b'.created ==>
            (RequestIn(ix) in b.created && b' == b) || RequestRent(b', t, RequestIn(ix)))
  {
    match ix
    case DepositCreate(user, _) => OpeningEffect(b, t, DepositSide, user);
    case WithdrawalCreate(user, _) => OpeningEffect(b, t, WithdrawalSide, user);
    case DepositCancel(user) => CancellingKeepsOthers(b, t.rent, TokenAccount(user), t.depositMint, DepositSide, user);
    case WithdrawalCancel(user) => CancellingKeepsOthers(b, t.rent, ShareAccount(user), t.shareMint, WithdrawalSide, user);
    case DepositReject(user) =>
      SettlingKeepsOthers(b, t.rent, payer, TokenAccount(user), t.depositMint, DepositSide, user, true);
    case DepositResolve(user) =>
      SettlingKeepsOthers(b, t.rent, payer, ShareAccount(user), t.shareMint, DepositSide, user, true);
    case WithdrawalReject(user) =>
      SettlingKeepsOthers(b, t.rent, payer, ShareAccount(user), t.shareMint, WithdrawalSide, user, true);
    case WithdrawalResolve(user) =>
      SettlingKeepsOthers(b, t.rent, payer, TokenAccount(user), t.depositMint, WithdrawalSide, user, pays);
  }

  lemma OpeningEffect(b: Bank, t: Terms, side: Side, owner: Key)
    requires OpenRequest(b, t, side, owner).Ok?
    ensures var b', request := OpenRequest(b, t, side, owner).value, RequestOf(side, owner);
      OthersHold(b, b', request) && request in b'.created
      && ((request in b.created && b' == b) || RequestRent(b', t, request))
  {
    OpeningKeepsOthers(b, t, side, owner);
    if RequestOf(side, owner) !in b.created {
      OpeningHoldsRent(b, t, side, owner);
    }
  }

  /** The tables change at the same user as the request accounts. */
  lemma TablesFollow(a: Accounts, now: i64, ix: Instruction, o: Outcome)
    requires ix.IsRequest() && Apply(a, now, ix) == Ok(o)
    ensures forall user :: (ix.OnDeposit() && user == ix.user) || (user in o.accounts.deposits <==> user in a.deposits)
    ensures forall user :: (ix.OnWithdrawal() && user == ix.user) || (user in o.accounts.withdrawals <==> user in a.withdrawals)
    ensures ix.OnDeposit() ==> (ix.user in o.accounts.deposits <==> ix.DepositCreate?)
    ensures ix.OnWithdrawal() ==> (ix.user in o.accounts.withdrawals <==> ix.WithdrawalCreate?)
  {
  }

  lemma RequestKeepsRents(a: Accounts, b: Bank, now: i64, t: Terms, ix: Instruction, payer: Key, d: Done)
    requires RentsHeld(a, b, t) && ix.IsRequest() && Perform(a, b, now, t, ix, payer) == Ok(d)
    ensures RentsHeld(d.accounts, d.bank, t)
  {
    GoesThrough(a, b, now, t, ix, payer);
    var o := Apply(a, now, ix).value;
    RentStepEffect(b, t, ix, payer, Pays(o.event));
    TablesFollow(a, now, ix, o);
    RentsCarry(b, d.bank, t, RequestIn(ix));
    MembersFollow(a, b, d.accounts, d.bank, ix);
  }

  lemma MembersFollow(a: Accounts, b: Bank, a': Accounts, b': Bank, ix: Instruction)
    requires ix.IsRequest() && OthersHold(b, b', RequestIn(ix))
    requires RequestIn(ix) in b'.created <==> ix.DepositCreate? || ix.WithdrawalCreate?
    requires forall user :: user in a.deposits <==> RequestOf(DepositSide, user) in b.created
    requires forall user :: user in a.withdrawals <==> RequestOf(WithdrawalSide, user) in b.created
    requires forall user :: (ix.OnDeposit() && user == ix.user) || (user in a'.deposits <==> user in a.deposits)
    requires forall user :: (ix.OnWithdrawal() && user == ix.user) || (user in a'.withdrawals <==> user in a.withdrawals)
    requires ix.OnDeposit() ==> (ix.user in a'.deposits <==> ix.DepositCreate?)
    requires ix.OnWithdrawal() ==> (ix.user in a'.withdrawals <==> ix.WithdrawalCreate?)
    ensures forall user :: user in a'.deposits <==> RequestOf(DepositSide, user) in b'.created
    ensures forall user :: user in a'.withdrawals <==> RequestOf(WithdrawalSide, user) in b'.created
  {
  }

  lemma InstructionKeepsRents(a: Accounts, b: Bank, now: i64, t: Terms, ix: Instruction, payer: Key, d: Done)
    requires RentsHeld(a, b, t) && Perform(a, b, now, t, ix, payer) == Ok(d)
    ensures RentsHeld(d.accounts, d.bank, t)
  {
    if ix.IsRequest() {
      RequestKeepsRents(a, b, now, t, ix, payer, d);
    } else {
      RequestsUntouched(a, now, ix, Apply(a, now, ix).value);
    }
  }

  /** The terms of a request do not depend on whether the deposit mint is still allowed. */
  lemma RentsIgnoreMint(a: Accounts, b: Bank, t: Terms, allowed: bool)
    ensures RentsHeld(a, b, t) <==> RentsHeld(a, b, t.(depositMintAllowed := allowed))
  {
    forall request: Address ensures RequestRent(b, t, request) <==> RequestRent(b, t.(depositMintAllowed := allowed), request) {
    }
  }

  lemma OutsideKeepsRents(w: World, t: Terms, move: Move)
    requires RentsHeld(w.machine.accounts, w.bank, t) && !move.Instruct?
    ensures RentsHeld(w.machine.accounts, WorldStep(w, t, move).bank, t)
  {
    var b' := WorldStep(w, t, move).bank;
    var nobody := Wallet(0);
    match move
    case Send(from, to, amount) =>
      assert OthersHold(w.bank, b', nobody);
      RentsCarry(w.bank, b', t, nobody);
    case OpenAccount(payer, account) =>
      if IsPayout(account) && InitPayout(w.bank, t.rent, payer, account, MintOf(t, account)).Ok? {
        InitKeepsOthers(w.bank, t.rent, payer, account, MintOf(t, account), nobody);
        RentsCarry(w.bank, b', t, account);
      }
    case CloseAccount(account) =>
      if IsPayout(account) {
        ClosingKeepsOthers(w.bank, account, account.key);
        RentsCarry(w.bank, b', t, account);
      }
  }

  lemma StepKeepsRents(w: World, t: Terms, move: Move)
    requires RentsHeld(w.machine.accounts, w.bank, t)
    ensures RentsHeld(WorldStep(w, t, move).machine.accounts, WorldStep(w, t, move).bank, t)
  {
    if move.Instruct? {
      var terms := t.(depositMintAllowed := move.depositMintAllowed);
      var r := Perform(w.machine.accounts, w.bank, move.now, terms, move.ix, move.payer);
      if r.Ok? {
        RentsIgnoreMint(w.machine.accounts, w.bank, t, move.depositMintAllowed);
        InstructionKeepsRents(w.machine.accounts, w.bank, move.now, terms, move.ix, move.payer, r.value);
        RentsIgnoreMint(r.value.accounts, r.value.bank, t, move.depositMintAllowed);
      }
    } else {
      OutsideKeepsRents(w, t, move);
    }
  }

  /** Runs keep the vault reachable and the rents held. */
  lemma {:induction false} RunKeepsRents(w: World, t: Terms, moves: seq<Move>)
    requires Reachable(w.machine) && RentsHeld(w.machine.accounts, w.bank, t) && MovesOrdered(w.machine.now, moves)
    ensures Reachable(WorldRun(w, t, moves).machine)
    ensures RentsHeld(WorldRun(w, t, moves).machine.accounts, WorldRun(w, t, moves).bank, t)
    decreases |moves|
  {
    if moves != [] {
      var next := WorldStep(w, t, moves[0]);
      MachineSteps(w, t, moves[0]);
      if next.machine != w.machine {
        StepStaysReachable(w.machine, Tx(moves[0].now, moves[0].ix));
      }
      StepKeepsRents(w, t, moves[0]);
      OrderedFromEarlier(next.machine.now, w.machine.now, moves);
      RunKeepsRents(next, t, moves[1..]);
    }
  }

  /** Moves ordered from a later clock are ordered from an earlier one. */
  lemma {:induction false} OrderedFromEarlier(later: i64, start: i64, moves: seq<Move>)
    requires moves != [] && MovesOrdered(start, moves)
    requires later == start || (moves[0].Instruct? && later == moves[0].now)
    ensures MovesOrdered(later, moves[1..])
  {
    if moves[0].Instruct? && later == start {
      OrderedSooner(start, moves[0].now, moves[1..]);
    }
  }

  lemma {:induction false} OrderedSooner(start: i64, later: i64, moves: seq<Move>)
    requires start <= later && MovesOrdered(later, moves)
    ensures MovesOrdered(start, moves)
    decreases |moves|
  {
    if moves != [] && !moves[0].Instruct? {
      OrderedSooner(start, later, moves[1..]);
    }
  }

  lemma WorldIsGood(w: World, t: Terms)
    requires WorldReachable(w, t)
    ensures Reachable(w.machine) && RentsHeld(w.machine.accounts, w.bank, t)
  {
    var g, bank, moves :| WorldReachedBy(w, t, g, bank, moves);
    assert Run(g.Start(), []) == g.Start();
    assert ReachedBy(g.Start(), g, []);
    RunKeepsRents(World(g.Start(), bank), t, moves);
  }
}
