/**
 The payout rent that a request holds in escrow. Settling a request may have to create the owner's payout
 account, and whoever settles it fronts the rent; the escrow repays them in the same transaction. Lamport
 balances are a table; the functions say what each instruction does to it, and class `RentLedger` does the
 same step by step.
 */
module PayoutRent {
  import opened Words
  import opened Tables
  import opened Requests

  const TOKEN_ACCOUNT_LEN := 165
  const REQUEST_LEN := 129          // discriminator and fields of a request account
  const ACCOUNT_OVERHEAD := 128     // bytes that rent counts on top of the data

  /** The addresses that hold lamports here. All but wallets are derived, so they never coincide. */
  datatype Address = Wallet(key: Key) | RequestOf(side: Side, key: Key) | ShareAccount(key: Key) | TokenAccount(key: Key)

  /** A mint, by the length of token account it needs: `None` if its extensions cannot be read. */
  datatype Mint = ClassicMint | Token2022Mint(accountLen: Option<nat>)

  datatype Rent = Rent(lamportsPerByte: nat) {
    function MinimumBalance(len: nat): nat {
      (ACCOUNT_OVERHEAD + len) * lamportsPerByte
    }
  }

  /** What a transaction finds in place: the rent, the two mints, and whether the deposit mint is still allowed. */
  datatype Terms = Terms(rent: Rent, shareMint: Mint, depositMint: Mint, depositMintAllowed: bool)

  function PayoutAccountLen(mint: Mint): Result<nat> {
    match mint
    case ClassicMint => Ok(TOKEN_ACCOUNT_LEN)
    case Token2022Mint(Some(len)) => Ok(len)
    case Token2022Mint(None) => Err(InvalidDepositMintExtension)
  }

  /** Lamport balances, the accounts that hold data, and the `rent_escrow` field of each open request. */
  datatype Bank = Bank(lamports: map<Address, nat>, created: set<Address>, escrows: map<Address, nat>)

  function Minus(a: nat, b: nat): nat {
    if b <= a then a - b else 0
  }

  function Min(a: nat, b: nat): nat {
    if a <= b then a else b
  }

  function Max(a: nat, b: nat): nat {
    if a <= b then b else a
  }

  /** A transfer by the system program. */
  function Move(b: Bank, from: Address, to: Address, amount: nat): Result<Bank> {
    if Balance(b.lamports, from) < amount then Err(InsufficientLamports)
    else Ok(b.(lamports := Credit(Debit(b.lamports, from, amount), to, amount)))
  }

  /** What an account lacks of its rent. */
  function Shortfall(b: Bank, rent: Rent, account: Address, len: nat): nat {
    if account in b.created then 0 else Minus(rent.MinimumBalance(len), Balance(b.lamports, account))
  }

  /** Creating a missing account of `len` bytes: `payer` tops up what the address holds to the minimum. */
  function CreateAccount(b: Bank, rent: Rent, payer: Address, account: Address, len: nat): Result<Bank> {
    match Move(b, payer, account, Shortfall(b, rent, account, len))
    case Err(e) => Err(e)
    case Ok(paid) => Ok(paid.(created := paid.created + {account}))
  }

  // Opening a request

  /** The rent of the larger of the two payout accounts a request may need. */
  function PayoutRentOf(t: Terms): Result<nat> {
    match PayoutAccountLen(t.shareMint) case Err(e) => Err(e) case Ok(shareLen) =>
    match PayoutAccountLen(t.depositMint) case Err(e) => Err(e) case Ok(depositLen) =>
    Ok(Max(t.rent.MinimumBalance(shareLen), t.rent.MinimumBalance(depositLen)))
  }

  function EscrowRent(b: Bank, t: Terms, side: Side, owner: Key): Result<Bank> {
    var request := RequestOf(side, owner);
    match PayoutRentOf(t) case Err(e) => Err(e) case Ok(escrow) =>
    match Move(b, Wallet(owner), request, escrow) case Err(e) => Err(e) case Ok(funded) =>
    Ok(funded.(escrows := funded.escrows[request := escrow]))
  }

  /** The account of a request, created unless it exists. */
  function InitRequest(b: Bank, rent: Rent, side: Side, owner: Key): Result<Bank> {
    if RequestOf(side, owner) in b.created then Ok(b)
    else CreateAccount(b, rent, Wallet(owner), RequestOf(side, owner), REQUEST_LEN)
  }

  /** A new request is charged its own rent, then the payout rent; adding to an open one costs nothing. */
  function OpenRequest(b: Bank, t: Terms, side: Side, owner: Key): Result<Bank> {
    match InitRequest(b, t.rent, side, owner) case Err(e) => Err(e) case Ok(base) =>
    if RequestOf(side, owner) in b.created then Ok(base) else EscrowRent(base, t, side, owner)
  }

  // Closing a request

  /** What the request repays to whoever fronted `funded`. */
  function Drawn(b: Bank, funded: nat, request: Address): nat {
    Min(Min(funded, Balance(b.escrows, request)), Balance(b.lamports, request))
  }

  /** Creates the payout account if it is missing, and repays the payer out of the request. */
  function CreatePayout(b: Bank, rent: Rent, payer: Address, payout: Address, mint: Mint, request: Address): Result<Bank> {
    if payout in b.created then Ok(b) else
    match PayoutAccountLen(mint) case Err(e) => Err(e) case Ok(len) =>
    match CreateAccount(b, rent, payer, payout, len) case Err(e) => Err(e) case Ok(made) =>
    var drawn := Drawn(made, Shortfall(b, rent, payout, len), request);
    Ok(made.(lamports := Credit(Debit(made.lamports, request, drawn), payer, drawn)))
  }

  /** Closing a request hands everything it holds to its owner. */
  function Close(b: Bank, request: Address, owner: Address): Bank {
    var held := Balance(b.lamports, request);
    Bank(Credit(Debit(b.lamports, request, held), owner, held), b.created - {request}, b.escrows - {request})
  }

  /** A settlement or rejection by `payer`. A settlement that pays nothing creates no payout account. */
  function Settle(b: Bank, rent: Rent, payer: Key, payout: Address, mint: Mint, side: Side, owner: Key, pays: bool): Result<Bank> {
    var request := RequestOf(side, owner);
    if !pays then Ok(Close(b, request, Wallet(owner))) else
    match CreatePayout(b, rent, Wallet(payer), payout, mint, request) case Err(e) => Err(e) case Ok(paid) =>
    Ok(Close(paid, request, Wallet(owner)))
  }

  /** A cancellation: the owner signs, so a missing payout account is recreated at the owner's cost. */
  function Cancel(b: Bank, rent: Rent, payout: Address, mint: Mint, side: Side, owner: Key): Result<Bank> {
    match InitPayout(b, rent, owner, payout, mint) case Err(e) => Err(e) case Ok(made) =>
    Ok(Close(made, RequestOf(side, owner), Wallet(owner)))
  }

  function InitPayout(b: Bank, rent: Rent, owner: Key, payout: Address, mint: Mint): Result<Bank> {
    if payout in b.created then Ok(b) else
    match PayoutAccountLen(mint) case Err(e) => Err(e) case Ok(len) =>
    CreateAccount(b, rent, Wallet(owner), payout, len)
  }

  class RentLedger {
    var lamports: map<Address, nat>
    var created: set<Address>
    var escrows: map<Address, nat>

    function State(): Bank
      reads this
    {
      Bank(lamports, created, escrows)
    }

    constructor (b: Bank)
      ensures State() == b
    {
      lamports, created, escrows := b.lamports, b.created, b.escrows;
    }

    method Transfer(from: Address, to: Address, amount: nat) returns (r: Result<()>)
      modifies this
      ensures match Move(old(State()), from, to, amount)
        case Ok(b) => r == Ok(()) && State() == b
        case Err(e) => r == Err(e) && State() == old(State())
    {
      if Balance(lamports, from) < amount { return Err(InsufficientLamports); }
      lamports := Debit(lamports, from, amount);
      lamports := Credit(lamports, to, amount);
      return Ok(());
    }

    method Create(rent: Rent, payer: Address, account: Address, len: nat) returns (r: Result<()>)
      requires account !in created
      modifies this
      ensures match CreateAccount(old(State()), rent, payer, account, len)
        case Ok(b) => r == Ok(()) && State() == b
        case Err(e) => r == Err(e) && State() == old(State())
    {
      var missing := Minus(rent.MinimumBalance(len), Balance(lamports, account));
      var _ :- Transfer(payer, account, missing);
      created := created + {account};
      r := Ok(());
    }

    /** Creates a request account unless it exists, and says whether it did. */
    method InitRequestAccount(rent: Rent, side: Side, owner: Key) returns (r: Result<bool>)
      modifies this
      ensures match InitRequest(old(State()), rent, side, owner)
        case Ok(b) => r == Ok(RequestOf(side, owner) !in old(created)) && State() == b
        case Err(e) => r == Err(e)
    {
      if RequestOf(side, owner) in created { return Ok(false); }
      var _ :- Create(rent, Wallet(owner), RequestOf(side, owner), REQUEST_LEN);
      r := Ok(true);
    }

    /** Creates the owner's payout account unless it exists. */
    method InitPayoutAccount(rent: Rent, owner: Key, payout: Address, mint: Mint) returns (r: Result<()>)
      modifies this
      ensures match InitPayout(old(State()), rent, owner, payout, mint)
        case Ok(b) => r == Ok(()) && State() == b
        case Err(e) => r == Err(e)
    {
      if payout in created { return Ok(()); }
      var len :- PayoutAccountLen(mint);
      r := Create(rent, Wallet(owner), payout, len);
    }

    method EscrowPayoutRent(t: Terms, side: Side, owner: Key) returns (r: Result<()>)
      modifies this
      ensures match EscrowRent(old(State()), t, side, owner)
        case Ok(b) => r == Ok(()) && State() == b
        case Err(e) => r == Err(e) && State() == old(State())
    {
      var shareLen :- PayoutAccountLen(t.shareMint);
      var depositLen :- PayoutAccountLen(t.depositMint);
      var escrow := Max(t.rent.MinimumBalance(shareLen), t.rent.MinimumBalance(depositLen));
      var _ :- Transfer(Wallet(owner), RequestOf(side, owner), escrow);
      escrows := escrows[RequestOf(side, owner) := escrow];
      r := Ok(());
    }

    method CreatePayoutAccount(rent: Rent, payer: Address, payout: Address, mint: Mint, request: Address) returns (r: Result<nat>)
      modifies this
      ensures match CreatePayout(old(State()), rent, payer, payout, mint, request)
        case Err(e) => r == Err(e) && State() == old(State())
        case Ok(b) => r.Ok? && State() == b
    {
      if payout in created { return Ok(0); }
      var len :- PayoutAccountLen(mint);
      var funded := Minus(rent.MinimumBalance(len), Balance(lamports, payout));
      var _ :- Create(rent, payer, payout, len);

      // repaid afterwards, not prefunded
      var drawn := Min(Min(funded, Balance(escrows, request)), Balance(lamports, request));
      lamports := Debit(lamports, request, drawn);
      lamports := Credit(lamports, payer, drawn);
      r := Ok(drawn);
    }

    method CloseInto(request: Address, owner: Address)
      modifies this
      ensures State() == Close(old(State()), request, owner)
    {
      var held := Balance(lamports, request);
      lamports := Debit(lamports, request, held);
      lamports := Credit(lamports, owner, held);
      created := created - {request};
      escrows := escrows - {request};
    }
  }

  // Conservation

  lemma MoveConserves(b: Bank, from: Address, to: Address, amount: nat)
    requires Move(b, from, to, amount).Ok?
    ensures Total(Move(b, from, to, amount).value.lamports) == Total(b.lamports)
  {
    TotalDebit(b.lamports, from, amount);
    TotalCredit(Debit(b.lamports, from, amount), to, amount);
  }

  lemma CreationConserves(b: Bank, rent: Rent, payer: Address, account: Address, len: nat)
    requires CreateAccount(b, rent, payer, account, len).Ok?
    ensures Total(CreateAccount(b, rent, payer, account, len).value.lamports) == Total(b.lamports)
  {
    MoveConserves(b, payer, account, Shortfall(b, rent, account, len));
  }

  /** A new account ends with its rent, or with what its address held if that is more; its payer pays the difference. */
  lemma CreationTopsUp(b: Bank, rent: Rent, payer: Address, account: Address, len: nat)
    requires payer != account && account !in b.created
    ensures var minimum, held := (128 + len) * rent.lamportsPerByte, Balance(b.lamports, account);
      var r := CreateAccount(b, rent, payer, account, len);
      (r.Ok? <==> minimum - held <= Balance(b.lamports, payer))
      && (r.Ok? ==>
            Balance(r.value.lamports, account) == Max(minimum, held)
            && Balance(r.value.lamports, payer) + Max(minimum, held) == Balance(b.lamports, payer) + held
            && (forall x :: x != payer && x != account ==> Balance(r.value.lamports, x) == Balance(b.lamports, x))
            && r.value.created == b.created + {account} && r.value.escrows == b.escrows)
  {
  }

  /** No lamport is created or lost by opening a request. */
  lemma OpeningConserves(b: Bank, t: Terms, side: Side, owner: Key)
    requires OpenRequest(b, t, side, owner).Ok?
    ensures Total(OpenRequest(b, t, side, owner).value.lamports) == Total(b.lamports)
  {
    var request := RequestOf(side, owner);
    if request !in b.created {
      CreationConserves(b, t.rent, Wallet(owner), request, REQUEST_LEN);
      var base := CreateAccount(b, t.rent, Wallet(owner), request, REQUEST_LEN).value;
      MoveConserves(base, Wallet(owner), request, PayoutRentOf(t).value);
    }
  }

  lemma PayoutConserves(b: Bank, rent: Rent, payer: Address, payout: Address, mint: Mint, request: Address)
    requires CreatePayout(b, rent, payer, payout, mint, request).Ok?
    ensures Total(CreatePayout(b, rent, payer, payout, mint, request).value.lamports) == Total(b.lamports)
  {
    if payout !in b.created {
      var len := PayoutAccountLen(mint).value;
      CreationConserves(b, rent, payer, payout, len);
      var made := CreateAccount(b, rent, payer, payout, len).value;
      var drawn := Drawn(made, Shortfall(b, rent, payout, len), request);
      TotalDebit(made.lamports, request, drawn);
      TotalCredit(Debit(made.lamports, request, drawn), payer, drawn);
    }
  }

  lemma ClosingConserves(b: Bank, request: Address, owner: Address)
    ensures Total(Close(b, request, owner).lamports) == Total(b.lamports)
  {
    var held := Balance(b.lamports, request);
    TotalDebit(b.lamports, request, held);
    TotalCredit(Debit(b.lamports, request, held), owner, held);
  }

  /** Nor by settling or cancelling one. */
  lemma SettlingConserves(b: Bank, rent: Rent, payer: Key, payout: Address, mint: Mint, side: Side, owner: Key, pays: bool)
    requires Settle(b, rent, payer, payout, mint, side, owner, pays).Ok?
    ensures Total(Settle(b, rent, payer, payout, mint, side, owner, pays).value.lamports) == Total(b.lamports)
  {
    var request := RequestOf(side, owner);
    if pays {
      PayoutConserves(b, rent, Wallet(payer), payout, mint, request);
      ClosingConserves(CreatePayout(b, rent, Wallet(payer), payout, mint, request).value, request, Wallet(owner));
    } else {
      ClosingConserves(b, request, Wallet(owner));
    }
  }

  lemma CancellingConserves(b: Bank, rent: Rent, payout: Address, mint: Mint, side: Side, owner: Key)
    requires Cancel(b, rent, payout, mint, side, owner).Ok?
    ensures Total(Cancel(b, rent, payout, mint, side, owner).value.lamports) == Total(b.lamports)
  {
    if payout !in b.created {
      CreationConserves(b, rent, Wallet(owner), payout, PayoutAccountLen(mint).value);
    }
    ClosingConserves(InitPayout(b, rent, owner, payout, mint).value, RequestOf(side, owner), Wallet(owner));
  }

  // Free settlement

  /** The request holds its own rent and, on top, what it escrowed. */
  predicate RentHeld(b: Bank, rent: Rent, request: Address) {
    rent.MinimumBalance(REQUEST_LEN) + Balance(b.escrows, request) <= Balance(b.lamports, request)
  }

  /** The escrow covers the payout account for `mint`. */
  predicate EscrowCovers(b: Bank, rent: Rent, mint: Mint, request: Address) {
    PayoutAccountLen(mint).Ok? && rent.MinimumBalance(PayoutAccountLen(mint).value) <= Balance(b.escrows, request)
  }

  /** Opening a request leaves it with its rent and an escrow that covers either payout account. */
  lemma OpeningHoldsRent(b: Bank, t: Terms, side: Side, owner: Key)
    requires RequestOf(side, owner) !in b.created && OpenRequest(b, t, side, owner).Ok?
    ensures var after := OpenRequest(b, t, side, owner).value;
      RentHeld(after, t.rent, RequestOf(side, owner))
      && EscrowCovers(after, t.rent, t.shareMint, RequestOf(side, owner))
      && EscrowCovers(after, t.rent, t.depositMint, RequestOf(side, owner))
      && after.created == b.created + {RequestOf(side, owner)}
  {
  }

  /**
   What opening a request costs its owner, and nobody else: what the request lacks of its own rent, and the
   smallest escrow that covers either payout account.
   */
  lemma OpeningCosts(b: Bank, t: Terms, side: Side, owner: Key)
    requires RequestOf(side, owner) !in b.created && OpenRequest(b, t, side, owner).Ok?
    ensures PayoutAccountLen(t.shareMint).Ok? && PayoutAccountLen(t.depositMint).Ok?
    ensures var after, request := OpenRequest(b, t, side, owner).value, RequestOf(side, owner);
      var escrow := Balance(after.escrows, request);
      var missing := Minus(t.rent.MinimumBalance(REQUEST_LEN), Balance(b.lamports, request));
      var shares := t.rent.MinimumBalance(PayoutAccountLen(t.shareMint).value);
      var tokens := t.rent.MinimumBalance(PayoutAccountLen(t.depositMint).value);
      shares <= escrow && tokens <= escrow && (escrow == shares || escrow == tokens)
      && Balance(after.lamports, Wallet(owner)) == Balance(b.lamports, Wallet(owner)) - missing - escrow
      && Balance(after.lamports, request) == Balance(b.lamports, request) + missing + escrow
      && (forall x :: x != Wallet(owner) && x != request ==> Balance(after.lamports, x) == Balance(b.lamports, x))
      && after.created == b.created + {request} && after.escrows == b.escrows[request := escrow]
  {
  }

  /** What a cancellation costs: the owner pays for a payout account that is missing, and gets all that the request held. */
  lemma CancellingCosts(b: Bank, rent: Rent, payout: Address, mint: Mint, side: Side, owner: Key)
    requires IsPayout(payout) && Cancel(b, rent, payout, mint, side, owner).Ok?
    ensures payout in b.created || PayoutAccountLen(mint).Ok?
    ensures var after, request := Cancel(b, rent, payout, mint, side, owner).value, RequestOf(side, owner);
      var spent := if payout in b.created then 0 else Shortfall(b, rent, payout, PayoutAccountLen(mint).value);
      Balance(after.lamports, Wallet(owner)) == Balance(b.lamports, Wallet(owner)) - spent + Balance(b.lamports, request)
      && Balance(after.lamports, request) == 0
      && Balance(after.lamports, payout) == Balance(b.lamports, payout) + spent
      && (forall x :: x != Wallet(owner) && x != request && x != payout ==> Balance(after.lamports, x) == Balance(b.lamports, x))
      && after.created == b.created + {payout} - {request} && after.escrows == b.escrows - {request}
  {
    if payout in b.created { assert b.created + {payout} == b.created; }
  }

  /** A payout address is that of a token account. */
  predicate IsPayout(account: Address) {
    account.ShareAccount? || account.TokenAccount?
  }

  /** Who settles needs the shortfall at hand, and nothing else can stop the payout account. */
  lemma PayoutWorks(b: Bank, rent: Rent, payer: Key, payout: Address, mint: Mint, request: Address)
    requires PayoutAccountLen(mint).Ok?
    ensures CreatePayout(b, rent, Wallet(payer), payout, mint, request).Ok? <==>
            Shortfall(b, rent, payout, PayoutAccountLen(mint).value) <= Balance(b.lamports, Wallet(payer))
  {
  }

  /**
   The payer ends whole exactly if the escrow, and what the request holds, cover the shortfall. A request
   from before the escrow existed has a zero escrow, and then settling is free only if nothing is missing.
   */
  lemma FreeExactlyIfCovered(b: Bank, rent: Rent, payer: Key, payout: Address, mint: Mint, side: Side, owner: Key)
    requires IsPayout(payout) && PayoutAccountLen(mint).Ok?
    requires CreatePayout(b, rent, Wallet(payer), payout, mint, RequestOf(side, owner)).Ok?
    ensures var request := RequestOf(side, owner);
      var after := CreatePayout(b, rent, Wallet(payer), payout, mint, request).value;
      var shortfall := Shortfall(b, rent, payout, PayoutAccountLen(mint).value);
      Balance(after.lamports, Wallet(payer)) == Balance(b.lamports, Wallet(payer)) <==>
      shortfall <= Balance(b.escrows, request) && shortfall <= Balance(b.lamports, request)
  {
  }

  /** With the escrow that opening charged, creating the payout account moves its cost from the request and from nobody else. */
  lemma PayoutIsFree(b: Bank, rent: Rent, payer: Key, payout: Address, mint: Mint, request: Address)
    requires IsPayout(payout) && request.RequestOf?
    requires RentHeld(b, rent, request) && EscrowCovers(b, rent, mint, request)
    requires CreatePayout(b, rent, Wallet(payer), payout, mint, request).Ok?
    ensures var after := CreatePayout(b, rent, Wallet(payer), payout, mint, request).value;
      var shortfall := Shortfall(b, rent, payout, PayoutAccountLen(mint).value);
      shortfall <= Balance(b.escrows, request)
      && Balance(after.lamports, request) == Balance(b.lamports, request) - shortfall
      && Balance(after.lamports, payout) == Balance(b.lamports, payout) + shortfall
      && (forall x :: x != request && x != payout ==> Balance(after.lamports, x) == Balance(b.lamports, x))
      && after.created == b.created + {payout} && after.escrows == b.escrows
  {
    var after := CreatePayout(b, rent, Wallet(payer), payout, mint, request).value;
    if payout in b.created { assert b.created + {payout} == b.created; }
  }

  /**
   Settlement is free. Whoever settles or rejects, on whatever prefunding, ends with exactly the lamports it
   began with; the request keeps its own rent until it closes; and its owner gets that rent, whatever of the
   escrow was not needed, and anything else it held. Payer and owner may be the same.
   */
  lemma SettlementIsFree(b: Bank, rent: Rent, payer: Key, payout: Address, mint: Mint, side: Side, owner: Key, pays: bool)
    requires IsPayout(payout)
    requires RentHeld(b, rent, RequestOf(side, owner)) && EscrowCovers(b, rent, mint, RequestOf(side, owner))
    requires Settle(b, rent, payer, payout, mint, side, owner, pays).Ok?
    ensures var request := RequestOf(side, owner);
      var after := Settle(b, rent, payer, payout, mint, side, owner, pays).value;
      var spent := if pays then Shortfall(b, rent, payout, PayoutAccountLen(mint).value) else 0;
      var kept := Balance(b.lamports, request) - spent;
      rent.MinimumBalance(REQUEST_LEN) + Balance(b.escrows, request) - spent <= kept
      && spent <= Balance(b.escrows, request)
      && (payer != owner ==> Balance(after.lamports, Wallet(payer)) == Balance(b.lamports, Wallet(payer)))
      && Balance(after.lamports, Wallet(owner)) == Balance(b.lamports, Wallet(owner)) + kept
      && (forall x :: x != Wallet(owner) && x != request && x != payout ==> Balance(after.lamports, x) == Balance(b.lamports, x))
      && Balance(b.lamports, payout) <= Balance(after.lamports, payout)
      && after.created == (if pays then b.created + {payout} else b.created) - {request}
      && after.escrows == b.escrows - {request}
  {
    if pays {
      PayoutIsFree(b, rent, payer, payout, mint, RequestOf(side, owner));
    }
  }
}
