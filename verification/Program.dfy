/**
 The instruction handlers, statement by statement: checks, then changes to the loaded accounts, then
 token-program calls. Each handler is proved to do what `Protocol` says of its instruction. A handler
 that fails may leave accounts changed; `Process`, the transaction around it, then restores them all.
 */
module Program {
  import opened Words
  import opened Tables
  import opened VaultModel
  import opened VaultAccount
  import opened Requests
  import opened TokenProgram
  import opened Protocol
  import opened PayoutRent
  import opened Transactions
  import opened Runs

  class HedgeVault {
    var vault: Vault
    var ledger: TokenLedger
    var rents: RentLedger
    var config: Config
    const authority: Key
    const depositMint: Key
    const shareMint: Key
    var deposits: RequestTable
    var withdrawals: RequestTable
    var strategies: map<Key, u32>
    var closed: bool

    /** All accounts as one value. */
    function State(): Accounts
      reads this, vault, ledger
    {
      Accounts(
        vault.State(), config, authority, depositMint, shareMint, deposits, withdrawals,
        ledger.tokens, ledger.shares, ledger.shareSupply, ledger.depositEscrow, ledger.shareEscrow, ledger.idle,
        strategies, closed)
    }

    constructor (a: Accounts, b: Bank)
      ensures State() == a && rents.State() == b && fresh(vault) && fresh(ledger) && fresh(rents)
    {
      rents := new RentLedger(b);
      vault := new Vault(a.vault);
      ledger := new TokenLedger(TokenState(a.tokens, a.shares, a.shareSupply, a.depositEscrow, a.shareEscrow, a.idle));
      config, authority, deposits, withdrawals := a.config, a.authority, a.deposits, a.withdrawals;
      depositMint, shareMint := a.depositMint, a.shareMint;
      strategies, closed := a.strategies, a.closed;
    }

    // vault_initialize

    /**
     A run starts here: the new vault, around it whatever its addresses already hold. `manager` is the authority
     that the whitelist entry of the sender names, if there is one.
     */
    static method VaultInitialize(g: Genesis, b: Bank, manager: Option<Key>, depositMintAllowed: bool)
      returns (r: Result<HedgeVault>)
      ensures r.Ok? <==>
              manager == Some(g.authority) && g.config.status == Normal
              && g.vault.performanceFeeBps <= MAX_BPS && g.vault.managementFeeBps <= MAX_BPS
              && 0 < g.vault.minDeposit && 0 < g.vault.minWithdrawalShares && depositMintAllowed
              && g.config.nextVaultId < U64_MAX
      ensures r.Ok? ==> fresh(r.value) && r.value.State() == g.Start().accounts && r.value.rents.State() == b
      ensures r.Err? ==>
                r.error == (if manager.None? then AccountNotInitialized
                            else if g.config.status != Normal then ProtocolNotOperational
                            else if manager.value != g.authority then InvalidManagerAuthority
                            else if g.vault.performanceFeeBps > MAX_BPS || g.vault.managementFeeBps > MAX_BPS
                            then InvalidBasisPoints
                            else if g.vault.minDeposit == 0 || g.vault.minWithdrawalShares == 0 then InvalidMinimumAmount
                            else if !depositMintAllowed then InvalidDepositMintExtension
                            else MathOverflow)
    {
      var _ :- Validate(manager.Some?, AccountNotInitialized);
      var config := g.config;
      var _ :- Validate(config.status == Normal, ProtocolNotOperational);
      // only managers on the whitelist create vaults
      var _ :- Validate(g.authority == manager.value, InvalidManagerAuthority);
      var _ :- Validate(g.vault.performanceFeeBps <= MAX_BPS, InvalidBasisPoints);
      var _ :- Validate(g.vault.managementFeeBps <= MAX_BPS, InvalidBasisPoints);
      // against a supply so small that whoever donates sets the price
      var _ :- Validate(g.vault.minDeposit > 0 && g.vault.minWithdrawalShares > 0, InvalidMinimumAmount);
      var _ :- Validate(depositMintAllowed, InvalidDepositMintExtension);
      var account := new Vault.New(g.vault);
      var nextVaultId :- AddU64(config.nextVaultId, 1);
      config := config.(nextVaultId := nextVaultId);
      var started := new HedgeVault(
        Accounts(account.State(), config, g.authority, g.depositMint, g.shareMint,
                 map[], map[], g.tokens, map[], 0, 0, 0, g.idle, map[], false),
        b);
      r := Ok(started);
    }

    /** Reloads every account from `a`. */
    method Restore(a: Accounts, b: Bank)
      requires a.authority == authority && a.depositMint == depositMint && a.shareMint == shareMint
      modifies this
      ensures State() == a && rents.State() == b && fresh(vault) && fresh(ledger) && fresh(rents)
    {
      rents := new RentLedger(b);
      vault := new Vault(a.vault);
      ledger := new TokenLedger(TokenState(a.tokens, a.shares, a.shareSupply, a.depositEscrow, a.shareEscrow, a.idle));
      config, deposits, withdrawals := a.config, a.deposits, a.withdrawals;
      strategies, closed := a.strategies, a.closed;
    }

    // deposit_request_create

    method DepositRequestCreate(now: i64, t: Terms, user: Key, amount: u64) returns (r: Result<Event>)
      modifies this`deposits, vault, ledger, rents
      ensures match Open(old(State()), old(rents.State()), t, DepositSide, user, MayDeposit(old(State()), amount),
                         CreateDeposit(old(State()), now, user, amount))
        case Ok(d) => r == Ok(d.event) && State() == d.accounts && rents.State() == d.bank
        case Err(e) => r == Err(e)
    {
      var _ :- Validate(!closed, AccountNotInitialized);
      var isNew :- rents.InitRequestAccount(t.rent, DepositSide, user);
      var _ :- Validate(amount > 0, InvalidTransferAmount);
      var _ :- Validate(config.status == Normal, ProtocolNotOperational);
      var _ :- Validate(vault.status == Normal, VaultNotOperational);
      var _ :- Validate(!vault.depositPaused, VaultDepositPaused);
      // extensions of the mint may have changed since the vault was opened
      var _ :- Validate(t.depositMintAllowed, InvalidDepositMintExtension);
      if isNew {
        // held for whoever settles, who will have to create the payout account
        var _ :- rents.EscrowPayoutRent(t, DepositSide, user);
      }
      r := AddToDeposit(now, user, amount);
    }

    /** Adds to the request, new or live, once everything around it is in place. */
    method AddToDeposit(now: i64, user: Key, amount: u64) returns (r: Result<Event>)
      requires !closed && 0 < amount && DepositsOpen(State()).Ok?
      modifies this`deposits, vault, ledger
      ensures match CreateDeposit(old(State()), now, user, amount)
        case Ok(o) => r == Ok(o.event) && State() == o.accounts
        case Err(e) => r == Err(e)
    {
      var epoch := Epoch(now);

      // conditionally initialize the deposit request
      var data := if user in deposits then deposits[user] else NewRequest(epoch, now);
      var request := new RequestAccount(data);
      var _ :- request.Add(amount, epoch);
      var _ :- vault.RequestDeposit(amount);
      var _ :- ledger.WalletToDepositEscrow(user, amount);
      deposits := deposits[user := request.Data()];
      r := Ok(DepositRequested(user, amount));
    }

    // deposit_request_cancel

    method DepositRequestCancel(t: Terms, user: Key) returns (r: Result<Event>)
      modifies this`deposits, vault, ledger, rents
      ensures var o, b := CancelDepositRequest(old(State()), user),
        Cancel(old(rents.State()), t.rent, TokenAccount(user), t.depositMint, DepositSide, user);
        match Both(DepositCancel(user), o, b)
        case Ok(d) => r == Ok(d.event) && State() == d.accounts && rents.State() == d.bank
        case Err(e) => r == Err(e)
    {
      var _ :- Validate(!closed && user in deposits, AccountNotInitialized);
      // the owner signs, and pays for a payout account closed in the meantime
      var _ :- rents.InitPayoutAccount(t.rent, user, TokenAccount(user), t.depositMint);
      r := TakeBackDeposit(user);
    }

    /** What the vault and the token program do in a cancellation, and the end of the request. */
    method TakeBackDeposit(user: Key) returns (r: Result<Event>)
      requires !closed && user in deposits
      modifies this`deposits, vault, ledger, rents
      ensures match CancelDepositRequest(old(State()), user)
        case Ok(o) =>
          r == Ok(o.event) && State() == o.accounts
          && rents.State() == Close(old(rents.State()), RequestOf(DepositSide, user), Wallet(user))
        case Err(e) => r == Err(e) && e != AccountNotInitialized
    {
      var request := new RequestAccount(deposits[user]);
      // a priced request is settled, and not taken back; at a zero NAV it cannot be settled
      var _ :- Validate(request.Data().DepositCancellable(vault.navEpoch, vault.navPerShare), RequestNotCancellable);
      var amount := request.amount;
      var _ :- vault.CancelDeposit(amount);
      var _ :- ReleaseDeposit(user, amount);
      r := Ok(DepositReturned(user, amount));
    }

    /** The escrow back to the owner, and the end of the request. */
    method ReleaseDeposit(user: Key, amount: u64) returns (r: Result<()>)
      modifies this`deposits, ledger, rents
      ensures
        if old(ledger.depositEscrow) < amount then r == Err(TokenBalanceTooLow)
        else
          r == Ok(()) && deposits == old(deposits) - {user}
          && rents.State() == Close(old(rents.State()), RequestOf(DepositSide, user), Wallet(user))
          && ledger.State() == old(ledger.State()).(
               tokens := Credit(old(ledger.tokens), user, amount), depositEscrow := old(ledger.depositEscrow) - amount)
    {
      var _ :- ledger.DepositEscrowToWallet(user, amount);
      deposits := deposits - {user};
      rents.CloseInto(RequestOf(DepositSide, user), Wallet(user));
      r := Ok(());
    }

    // deposit_request_reject

    method DepositRequestReject(t: Terms, user: Key, payer: Key) returns (r: Result<Event>)
      modifies this`deposits, vault, ledger, rents
      ensures var o, b := RejectDepositRequest(old(State()), user),
        Settle(old(rents.State()), t.rent, payer, TokenAccount(user), t.depositMint, DepositSide, user, true);
        match Both(DepositReject(user), o, b)
        case Ok(d) => r == Ok(d.event) && State() == d.accounts && rents.State() == d.bank
        case Err(e) => r == Err(e)
    {
      var _ :- Validate(!closed && user in deposits, AccountNotInitialized);
      var request := new RequestAccount(deposits[user]);
      var amount := request.amount;
      var _ :- vault.CancelDeposit(amount);
      var _ :- RefundDeposit(t, user, payer, amount);
      r := Ok(DepositReturned(user, amount));
    }

    /** The payout account, the escrow back to the owner, and the end of the request. */
    method RefundDeposit(t: Terms, user: Key, payer: Key, amount: u64) returns (r: Result<()>)
      modifies this`deposits, ledger, rents
      ensures match Settle(old(rents.State()), t.rent, payer, TokenAccount(user), t.depositMint, DepositSide, user, true)
        case Err(e) => r == Err(e)
        case Ok(b) =>
          if old(ledger.depositEscrow) < amount then r == Err(TokenBalanceTooLow)
          else
            r == Ok(()) && rents.State() == b && deposits == old(deposits) - {user}
            && ledger.State() == old(ledger.State()).(
                 tokens := Credit(old(ledger.tokens), user, amount), depositEscrow := old(ledger.depositEscrow) - amount)
    {
      var _ :- rents.CreatePayoutAccount(
        t.rent, Wallet(payer), TokenAccount(user), t.depositMint, RequestOf(DepositSide, user));
      r := ReleaseDeposit(user, amount);
    }

    // deposit_request_resolve

    /** The amount of a request that may settle now. */
    method MaturedDeposit(user: Key) returns (r: Result<u64>)
      ensures r == DepositDue(State(), user)
    {
      var _ :- Validate(!closed && user in deposits, AccountNotInitialized);
      var request := new RequestAccount(deposits[user]);
      var _ :- Validate(config.status == Normal, ProtocolNotOperational);
      var _ :- Validate(vault.status == Normal, VaultNotOperational);
      var _ :- Validate(!vault.depositPaused, VaultDepositPaused);
      var _ :- Validate(request.Data().Resolvable(vault.navEpoch), RequestNotResolvable);
      r := Ok(request.amount);
    }

    /** The shares due, taken into the vault's account. */
    method PriceDeposit(user: Key) returns (r: Result<(u64, u64)>)
      modifies vault
      ensures match DepositDue(old(State()), user)
        case Err(e) => r == Err(e)
        case Ok(amount) =>
          match ResolveDeposit(old(vault.State()), amount)
          case Err(e) => r == Err(e)
          case Ok(settled) => r == Ok((amount, settled.output)) && vault.State() == settled.vault
      ensures r.Err? ==> BeforePayout(r.error)
    {
      var amount :- MaturedDeposit(user);
      var minted :- vault.ResolveDeposit(amount);
      r := Ok((amount, minted));
    }

    method DepositRequestResolve(t: Terms, user: Key, payer: Key) returns (r: Result<Event>)
      modifies this`deposits, vault, ledger, rents
      ensures var o, b := ResolveDepositRequest(old(State()), user),
        Settle(old(rents.State()), t.rent, payer, ShareAccount(user), t.shareMint, DepositSide, user, true);
        match Both(DepositResolve(user), o, b)
        case Ok(d) => r == Ok(d.event) && State() == d.accounts && rents.State() == d.bank
        case Err(e) => r == Err(e)
    {
      var priced :- PriceDeposit(user);
      r := SettleDeposit(t, user, payer, priced.0, priced.1);
    }

    method SettleDeposit(t: Terms, user: Key, payer: Key, amount: u64, minted: u64) returns (r: Result<Event>)
      modifies this`deposits, ledger, rents
      ensures var o, b := PayDeposit(old(State()), user, amount, minted),
        Settle(old(rents.State()), t.rent, payer, ShareAccount(user), t.shareMint, DepositSide, user, true);
        match Both(DepositResolve(user), o, b)
        case Ok(d) => r == Ok(d.event) && State() == d.accounts && rents.State() == d.bank
        case Err(e) => r == Err(e)
    {
      var _ :- MintAndClose(t, user, payer, amount, minted);
      r := Ok(DepositResolved(user, amount, minted, vault.navPerShare));
    }

    /** The payout account, the tokens and shares, and the end of the request. */
    method MintAndClose(t: Terms, user: Key, payer: Key, amount: u64, minted: u64) returns (r: Result<()>)
      modifies this`deposits, ledger, rents
      ensures match Settle(old(rents.State()), t.rent, payer, ShareAccount(user), t.shareMint, DepositSide, user, true)
        case Err(e) => r == Err(e)
        case Ok(b) =>
          if old(ledger.depositEscrow) < amount then r == Err(TokenBalanceTooLow)
          else if old(ledger.shareSupply) + minted > U64_MAX then r == Err(TokenSupplyOverflow)
          else
            r == Ok(()) && rents.State() == b && deposits == old(deposits) - {user}
            && ledger.State() == old(ledger.State()).(
                 depositEscrow := old(ledger.depositEscrow) - amount, idle := old(ledger.idle) + amount,
                 shares := Credit(old(ledger.shares), user, minted), shareSupply := old(ledger.shareSupply) + minted)
    {
      var _ :- rents.CreatePayoutAccount(
        t.rent, Wallet(payer), ShareAccount(user), t.shareMint, RequestOf(DepositSide, user));
      var _ :- MintFor(user, amount, minted);
      deposits := deposits - {user};
      rents.CloseInto(RequestOf(DepositSide, user), Wallet(user));
      r := Ok(());
    }

    /** The tokens into the vault, the shares to their owner. */
    method MintFor(user: Key, amount: u64, minted: u64) returns (r: Result<()>)
      modifies ledger
      ensures if old(ledger.depositEscrow) < amount then r == Err(TokenBalanceTooLow)
              else if old(ledger.shareSupply) + minted > U64_MAX then r == Err(TokenSupplyOverflow)
              else r == Ok(()) && ledger.State() == old(ledger.State()).(
                     depositEscrow := old(ledger.depositEscrow) - amount, idle := old(ledger.idle) + amount,
                     shares := Credit(old(ledger.shares), user, minted), shareSupply := old(ledger.shareSupply) + minted)
    {
      var _ :- ledger.DepositEscrowToIdle(amount);
      r := ledger.MintShares(user, minted);
    }

    // withdrawal_request_create

    method WithdrawalRequestCreate(now: i64, t: Terms, user: Key, amount: u64) returns (r: Result<Event>)
      modifies this`withdrawals, vault, ledger, rents
      ensures match Open(old(State()), old(rents.State()), t, WithdrawalSide, user, MayWithdraw(old(State()), amount),
                         CreateWithdrawal(old(State()), now, user, amount))
        case Ok(d) => r == Ok(d.event) && State() == d.accounts && rents.State() == d.bank
        case Err(e) => r == Err(e)
    {
      var _ :- Validate(!closed, AccountNotInitialized);
      var isNew :- rents.InitRequestAccount(t.rent, WithdrawalSide, user);
      var _ :- Validate(amount > 0, InvalidSharesAmount);
      var _ :- Validate(config.status != Paused, ProtocolNotWithdrawable);
      var _ :- Validate(vault.status != Paused, VaultNotWithdrawable);
      var _ :- Validate(!vault.withdrawalPaused, VaultWithdrawalPaused);
      if isNew {
        // held for whoever settles, who will have to create the payout account
        var _ :- rents.EscrowPayoutRent(t, WithdrawalSide, user);
      }
      r := AddToWithdrawal(now, user, amount);
    }

    /** Adds to the request, new or live, once everything around it is in place. */
    method AddToWithdrawal(now: i64, user: Key, amount: u64) returns (r: Result<Event>)
      requires !closed && 0 < amount && WithdrawalsOpen(State()).Ok?
      modifies this`withdrawals, vault, ledger
      ensures match CreateWithdrawal(old(State()), now, user, amount)
        case Ok(o) => r == Ok(o.event) && State() == o.accounts
        case Err(e) => r == Err(e)
    {
      var epoch := Epoch(now);

      // conditionally initialize the withdrawal request
      var data := if user in withdrawals then withdrawals[user] else NewRequest(epoch, now);
      var request := new RequestAccount(data);
      var _ :- request.Add(amount, epoch);
      var _ :- vault.RequestWithdrawal(amount, Balance(ledger.shares, user));
      var _ :- ledger.WalletToShareEscrow(user, amount);
      withdrawals := withdrawals[user := request.Data()];
      r := Ok(WithdrawalRequested(user, amount));
    }

    // withdrawal_request_cancel

    method WithdrawalRequestCancel(t: Terms, user: Key) returns (r: Result<Event>)
      modifies this`withdrawals, vault, ledger, rents
      ensures var o, b := CancelWithdrawalRequest(old(State()), user),
        Cancel(old(rents.State()), t.rent, ShareAccount(user), t.shareMint, WithdrawalSide, user);
        match Both(WithdrawalCancel(user), o, b)
        case Ok(d) => r == Ok(d.event) && State() == d.accounts && rents.State() == d.bank
        case Err(e) => r == Err(e)
    {
      var _ :- Validate(!closed && user in withdrawals, AccountNotInitialized);
      // the owner signs, and pays for a payout account closed in the meantime
      var _ :- rents.InitPayoutAccount(t.rent, user, ShareAccount(user), t.shareMint);
      r := TakeBackWithdrawal(user);
    }

    /** What the vault and the token program do in a cancellation, and the end of the request. */
    method TakeBackWithdrawal(user: Key) returns (r: Result<Event>)
      requires !closed && user in withdrawals
      modifies this`withdrawals, vault, ledger, rents
      ensures match CancelWithdrawalRequest(old(State()), user)
        case Ok(o) =>
          r == Ok(o.event) && State() == o.accounts
          && rents.State() == Close(old(rents.State()), RequestOf(WithdrawalSide, user), Wallet(user))
        case Err(e) => r == Err(e) && e != AccountNotInitialized
    {
      var request := new RequestAccount(withdrawals[user]);
      // a priced request is settled, and not taken back
      var _ :- Validate(request.Data().WithdrawalCancellable(vault.navEpoch), RequestNotCancellable);
      var amount := request.amount;
      var _ :- vault.CancelWithdrawal(amount);
      var _ :- ReleaseWithdrawal(user, amount);
      r := Ok(WithdrawalReturned(user, amount));
    }

    /** The escrow back to the owner, and the end of the request. */
    method ReleaseWithdrawal(user: Key, amount: u64) returns (r: Result<()>)
      modifies this`withdrawals, ledger, rents
      ensures
        if old(ledger.shareEscrow) < amount then r == Err(TokenBalanceTooLow)
        else
          r == Ok(()) && withdrawals == old(withdrawals) - {user}
          && rents.State() == Close(old(rents.State()), RequestOf(WithdrawalSide, user), Wallet(user))
          && ledger.State() == old(ledger.State()).(
               shares := Credit(old(ledger.shares), user, amount), shareEscrow := old(ledger.shareEscrow) - amount)
    {
      var _ :- ledger.ShareEscrowToWallet(user, amount);
      withdrawals := withdrawals - {user};
      rents.CloseInto(RequestOf(WithdrawalSide, user), Wallet(user));
      r := Ok(());
    }

    // withdrawal_request_reject

    method WithdrawalRequestReject(t: Terms, user: Key, payer: Key) returns (r: Result<Event>)
      modifies this`withdrawals, vault, ledger, rents
      ensures var o, b := RejectWithdrawalRequest(old(State()), user),
        Settle(old(rents.State()), t.rent, payer, ShareAccount(user), t.shareMint, WithdrawalSide, user, true);
        match Both(WithdrawalReject(user), o, b)
        case Ok(d) => r == Ok(d.event) && State() == d.accounts && rents.State() == d.bank
        case Err(e) => r == Err(e)
    {
      var _ :- Validate(!closed && user in withdrawals, AccountNotInitialized);
      var request := new RequestAccount(withdrawals[user]);
      var amount := request.amount;
      var _ :- vault.CancelWithdrawal(amount);
      var _ :- RefundWithdrawal(t, user, payer, amount);
      r := Ok(WithdrawalReturned(user, amount));
    }

    /** The payout account, the escrow back to the owner, and the end of the request. */
    method RefundWithdrawal(t: Terms, user: Key, payer: Key, amount: u64) returns (r: Result<()>)
      modifies this`withdrawals, ledger, rents
      ensures match Settle(old(rents.State()), t.rent, payer, ShareAccount(user), t.shareMint, WithdrawalSide, user, true)
        case Err(e) => r == Err(e)
        case Ok(b) =>
          if old(ledger.shareEscrow) < amount then r == Err(TokenBalanceTooLow)
          else
            r == Ok(()) && rents.State() == b && withdrawals == old(withdrawals) - {user}
            && ledger.State() == old(ledger.State()).(
                 shares := Credit(old(ledger.shares), user, amount), shareEscrow := old(ledger.shareEscrow) - amount)
    {
      var _ :- rents.CreatePayoutAccount(
        t.rent, Wallet(payer), ShareAccount(user), t.shareMint, RequestOf(WithdrawalSide, user));
      r := ReleaseWithdrawal(user, amount);
    }

    // withdrawal_request_resolve

    /** The amount of a request that may settle now. */
    method MaturedWithdrawal(user: Key) returns (r: Result<u64>)
      ensures r == WithdrawalDue(State(), user)
    {
      var _ :- Validate(!closed && user in withdrawals, AccountNotInitialized);
      var request := new RequestAccount(withdrawals[user]);
      var _ :- Validate(config.status != Paused, ProtocolNotWithdrawable);
      var _ :- Validate(vault.status != Paused, VaultNotWithdrawable);
      var _ :- Validate(!vault.withdrawalPaused, VaultWithdrawalPaused);
      var _ :- Validate(request.Data().Resolvable(vault.navEpoch), RequestNotResolvable);
      r := Ok(request.amount);
    }

    /** The payout due, taken out of the vault's account and covered by idle tokens. */
    method PriceWithdrawal(user: Key) returns (r: Result<(u64, u64)>)
      modifies vault
      ensures match WithdrawalDue(old(State()), user)
        case Err(e) => r == Err(e)
        case Ok(burned) =>
          match ResolveWithdrawal(old(vault.State()), burned)
          case Err(e) => r == Err(e)
          case Ok(settled) =>
            if ledger.idle < settled.output then r == Err(InsufficientFunds)
            else r == Ok((burned, settled.output)) && vault.State() == settled.vault
    {
      var burned :- MaturedWithdrawal(user);
      var amount :- vault.ResolveWithdrawal(burned, config.maxEpochOutflowBps);
      // it is up to the manager to hold this much in idle tokens
      var _ :- Validate(ledger.idle >= amount, InsufficientFunds);
      r := Ok((burned, amount));
    }

    method WithdrawalRequestResolve(t: Terms, user: Key, payer: Key) returns (r: Result<Event>)
      modifies this`withdrawals, vault, ledger, rents
      ensures var o := ResolveWithdrawalRequest(old(State()), user);
        var b := Settle(old(rents.State()), t.rent, payer, TokenAccount(user), t.depositMint, WithdrawalSide, user,
                        o.Ok? ==> Pays(o.value.event));
        match Both(WithdrawalResolve(user), o, b)
        case Ok(d) => r == Ok(d.event) && State() == d.accounts && rents.State() == d.bank
        case Err(e) => r == Err(e)
    {
      var priced :- PriceWithdrawal(user);
      r := SettleWithdrawal(t, user, payer, priced.0, priced.1);
    }

    method SettleWithdrawal(t: Terms, user: Key, payer: Key, burned: u64, amount: u64) returns (r: Result<Event>)
      requires amount <= ledger.idle
      modifies this`withdrawals, ledger, rents
      ensures var o, b := PayWithdrawal(old(State()), user, burned, amount),
        Settle(old(rents.State()), t.rent, payer, TokenAccount(user), t.depositMint, WithdrawalSide, user, amount > 0);
        match Both(WithdrawalResolve(user), o, b)
        case Ok(d) => r == Ok(d.event) && State() == d.accounts && rents.State() == d.bank
        case Err(e) => r == Err(e)
    {
      var _ :- BurnAndClose(t, user, payer, burned, amount);
      r := Ok(WithdrawalResolved(user, burned, amount, vault.navPerShare));
    }

    /** The burn, the payout, and the end of the request. */
    method BurnAndClose(t: Terms, user: Key, payer: Key, burned: u64, amount: u64) returns (r: Result<()>)
      requires amount <= ledger.idle
      modifies this`withdrawals, ledger, rents
      ensures
        if old(ledger.shareEscrow) < burned || old(ledger.shareSupply) < burned then r == Err(TokenBalanceTooLow)
        else match Settle(old(rents.State()), t.rent, payer, TokenAccount(user), t.depositMint, WithdrawalSide, user, amount > 0)
          case Err(e) => r == Err(e)
          case Ok(b) =>
            r == Ok(()) && rents.State() == b && withdrawals == old(withdrawals) - {user}
            && ledger.State() == old(ledger.State()).(
                 shareEscrow := old(ledger.shareEscrow) - burned, shareSupply := old(ledger.shareSupply) - burned,
                 tokens := if amount > 0 then Credit(old(ledger.tokens), user, amount) else old(ledger.tokens),
                 idle := old(ledger.idle) - amount)
    {
      var _ :- ledger.BurnEscrowed(burned);
      var _ :- PayOut(t, user, payer, amount);
      withdrawals := withdrawals - {user};
      rents.CloseInto(RequestOf(WithdrawalSide, user), Wallet(user));
      r := Ok(());
    }

    /** A payout account where one is needed, and the payout. */
    method PayOut(t: Terms, user: Key, payer: Key, amount: u64) returns (r: Result<()>)
      requires amount <= ledger.idle
      modifies ledger, rents
      ensures var request, payout := RequestOf(WithdrawalSide, user), TokenAccount(user);
        match if amount == 0 then Ok(old(rents.State()))
              else CreatePayout(old(rents.State()), t.rent, Wallet(payer), payout, t.depositMint, request)
        case Err(e) => r == Err(e)
        case Ok(b) =>
          r == Ok(()) && rents.State() == b
          && ledger.State() == old(ledger.State()).(
               tokens := if amount > 0 then Credit(old(ledger.tokens), user, amount) else old(ledger.tokens),
               idle := old(ledger.idle) - amount)
    {
      if amount > 0 {
        var request, payout := RequestOf(WithdrawalSide, user), TokenAccount(user);
        var _ :- rents.CreatePayoutAccount(t.rent, Wallet(payer), payout, t.depositMint, request);
        var _ :- ledger.IdleToWallet(user, amount);
      }
      r := Ok(());
    }

    // nav_update

    method NavUpdate(now: i64, totalAssets: u64) returns (r: Result<Event>)
      modifies vault
      ensures match Post(old(State()), now, totalAssets, Some(old(config.maxNavDeviationBps)))
        case Ok(o) => r == Ok(o.event) && State() == o.accounts
        case Err(e) => r == Err(e)
    {
      var _ :- Validate(!closed, AccountNotInitialized);
      var _ :- Validate(totalAssets >= ledger.idle, TotalAssetsBelowIdleBalance);
      var supply := vault.State().VirtualSupply(ledger.shareSupply);
      var args := NavUpdateArgs(
        totalAssets, ledger.shareSupply, config.platformPerformanceFeeBps, config.platformManagementFeeBps,
        Some(config.maxNavDeviationBps), now);
      var feeShares :- vault.UpdateNav(args);
      r := Ok(NavPosted(totalAssets, vault.navPerShare, feeShares, supply, args.maxNavDeviationBps));
    }

    // nav_override

    method NavOverride(now: i64, totalAssets: u64) returns (r: Result<Event>)
      modifies vault
      ensures match Post(old(State()), now, totalAssets, None)
        case Ok(o) => r == Ok(o.event) && State() == o.accounts
        case Err(e) => r == Err(e)
    {
      var _ :- Validate(!closed, AccountNotInitialized);
      var _ :- Validate(totalAssets >= ledger.idle, TotalAssetsBelowIdleBalance);
      var supply := vault.State().VirtualSupply(ledger.shareSupply);
      var args := NavUpdateArgs(
        totalAssets, ledger.shareSupply, config.platformPerformanceFeeBps, config.platformManagementFeeBps,
        None, now);
      var feeShares :- vault.UpdateNav(args);
      r := Ok(NavPosted(totalAssets, vault.navPerShare, feeShares, supply, args.maxNavDeviationBps));
    }

    // vault_claim_manager_fee

    method ClaimManager() returns (r: Result<Event>)
      modifies vault, ledger
      ensures match ClaimManagerFees(old(State()))
        case Ok(o) => r == Ok(o.event) && State() == o.accounts
        case Err(e) => r == Err(e)
    {
      var _ :- Validate(!closed, AccountNotInitialized);
      var claimed :- vault.ClaimManagerFee();
      var _ :- ledger.MintShares(authority, claimed);
      r := Ok(FeesClaimed(Manager, authority, claimed));
    }

    // config_claim_platform_fee

    method ClaimPlatform() returns (r: Result<Event>)
      modifies vault, ledger
      ensures match ClaimPlatformFees(old(State()))
        case Ok(o) => r == Ok(o.event) && State() == o.accounts
        case Err(e) => r == Err(e)
    {
      var _ :- Validate(!closed, AccountNotInitialized);
      var claimed :- vault.ClaimPlatformFee();
      var _ :- ledger.MintShares(config.treasuryAuthority, claimed);
      r := Ok(FeesClaimed(Platform, config.treasuryAuthority, claimed));
    }

    // vault_update

    method VaultUpdate(now: i64, args: VaultUpdateArgs) returns (r: Result<Event>)
      modifies vault
      ensures match UpdateVault(old(State()), now, args)
        case Ok(o) => r == Ok(o.event) && State() == o.accounts
        case Err(e) => r == Err(e)
    {
      var _ :- Validate(!closed, AccountNotInitialized);
      var event := OtherEvent;
      // an update of other fields leaves the fee schedule alone
      if args.performanceFeeBps.Some? || args.managementFeeBps.Some? {
        event := FeesUpdated(RequestedRates(vault.State(), args.performanceFeeBps, args.managementFeeBps));
        var _ :- vault.UpdateFees(args.performanceFeeBps, args.managementFeeBps, now);
      }
      var _ :- SetLimits(args);
      SetStatus(args);
      r := Ok(event);
    }

    method SetLimits(args: VaultUpdateArgs) returns (r: Result<()>)
      modifies vault
      ensures if (args.minDeposit.Some? ==> args.minDeposit.value > 0)
                 && (args.minWithdrawalShares.Some? ==> args.minWithdrawalShares.value > 0)
              then r == Ok(()) && vault.State() == old(vault.State()).(
                     depositCap := args.depositCap.UnwrapOr(old(vault.depositCap)),
                     minDeposit := args.minDeposit.UnwrapOr(old(vault.minDeposit)),
                     minWithdrawalShares := args.minWithdrawalShares.UnwrapOr(old(vault.minWithdrawalShares)))
              else r == Err(InvalidMinimumAmount)
    {
      if args.depositCap.Some? {
        vault.depositCap := args.depositCap.value;
      }
      if args.minDeposit.Some? {
        var _ :- Validate(args.minDeposit.value > 0, InvalidMinimumAmount);
        vault.minDeposit := args.minDeposit.value;
      }
      if args.minWithdrawalShares.Some? {
        var _ :- Validate(args.minWithdrawalShares.value > 0, InvalidMinimumAmount);
        vault.minWithdrawalShares := args.minWithdrawalShares.value;
      }
      r := Ok(());
    }

    method SetStatus(args: VaultUpdateArgs)
      modifies vault
      ensures vault.State() == old(vault.State()).(
                status := args.status.UnwrapOr(old(vault.status)),
                depositPaused := args.depositPaused.UnwrapOr(old(vault.depositPaused)),
                withdrawalPaused := args.withdrawalPaused.UnwrapOr(old(vault.withdrawalPaused)))
    {
      if args.status.Some? {
        vault.status := args.status.value;
      }
      if args.depositPaused.Some? {
        vault.depositPaused := args.depositPaused.value;
      }
      if args.withdrawalPaused.Some? {
        vault.withdrawalPaused := args.withdrawalPaused.value;
      }
    }

    // vault_pause

    method VaultPause() returns (r: Result<Event>)
      modifies vault
      ensures match PauseVault(old(State()))
        case Ok(o) => r == Ok(o.event) && State() == o.accounts
        case Err(e) => r == Err(e)
    {
      var _ :- Validate(!closed, AccountNotInitialized);
      vault.status := Paused;
      r := Ok(OtherEvent);
    }

    // config_update

    method ConfigUpdate(changes: ConfigUpdateArgs) returns (r: Result<Event>)
      modifies this`config
      ensures match UpdateConfig(old(State()), changes)
        case Ok(o) => r == Ok(o.event) && State() == o.accounts
        case Err(e) => r == Err(e)
    {
      var _ :- ChangeConfig(changes);
      r := Ok(OtherEvent);
    }

    method ChangeConfig(changes: ConfigUpdateArgs) returns (r: Result<()>)
      modifies this`config
      ensures match ChangedConfig(old(config), changes)
        case Ok(changed) => r == Ok(()) && config == changed
        case Err(e) => r == Err(e)
    {
      // a nomination, not yet a change of admin
      if changes.pendingAdmin.Some? {
        var _ :- Validate(changes.pendingAdmin.value != NO_KEY, InvalidPubkey);
        config := config.(pendingAdmin := changes.pendingAdmin.value);
      }
      if changes.navUpdater.Some? {
        var _ :- Validate(changes.navUpdater.value != NO_KEY, InvalidPubkey);
        config := config.(navUpdater := changes.navUpdater.value);
      }
      if changes.treasuryAuthority.Some? {
        var _ :- Validate(changes.treasuryAuthority.value != NO_KEY, InvalidPubkey);
        config := config.(treasuryAuthority := changes.treasuryAuthority.value);
      }
      if changes.guardian.Some? {
        var _ :- Validate(changes.guardian.value != NO_KEY, InvalidPubkey);
        config := config.(guardian := changes.guardian.value);
      }
      var _ :- ChangeRates(changes);
      if changes.status.Some? {
        config := config.(status := changes.status.value);
      }
      r := Ok(());
    }

    method ChangeRates(changes: ConfigUpdateArgs) returns (r: Result<()>)
      modifies this`config
      ensures if ValidBps(changes.platformPerformanceFeeBps) && ValidBps(changes.platformManagementFeeBps)
                 && ValidBps(changes.maxNavDeviationBps) && ValidBps(changes.maxEpochOutflowBps)
                 && ValidBps(changes.maxSlippageBps) && changes.maxSlippageBps != Some(0)
              then r == Ok(()) && config == old(config).(
                     platformPerformanceFeeBps := changes.platformPerformanceFeeBps.UnwrapOr(old(config).platformPerformanceFeeBps),
                     platformManagementFeeBps := changes.platformManagementFeeBps.UnwrapOr(old(config).platformManagementFeeBps),
                     maxNavDeviationBps := changes.maxNavDeviationBps.UnwrapOr(old(config).maxNavDeviationBps),
                     maxEpochOutflowBps := changes.maxEpochOutflowBps.UnwrapOr(old(config).maxEpochOutflowBps),
                     maxSlippageBps := changes.maxSlippageBps.UnwrapOr(old(config).maxSlippageBps))
              else r == Err(InvalidBasisPoints)
    {
      if changes.platformPerformanceFeeBps.Some? {
        var _ :- Validate(changes.platformPerformanceFeeBps.value <= MAX_BPS, InvalidBasisPoints);
        config := config.(platformPerformanceFeeBps := changes.platformPerformanceFeeBps.value);
      }
      if changes.platformManagementFeeBps.Some? {
        var _ :- Validate(changes.platformManagementFeeBps.value <= MAX_BPS, InvalidBasisPoints);
        config := config.(platformManagementFeeBps := changes.platformManagementFeeBps.value);
      }
      if changes.maxNavDeviationBps.Some? {
        var _ :- Validate(changes.maxNavDeviationBps.value <= MAX_BPS, InvalidBasisPoints);
        config := config.(maxNavDeviationBps := changes.maxNavDeviationBps.value);
      }
      if changes.maxEpochOutflowBps.Some? {
        var _ :- Validate(changes.maxEpochOutflowBps.value <= MAX_BPS, InvalidBasisPoints);
        config := config.(maxEpochOutflowBps := changes.maxEpochOutflowBps.value);
      }
      if changes.maxSlippageBps.Some? {
        var _ :- Validate(0 < changes.maxSlippageBps.value <= MAX_BPS, InvalidBasisPoints);
        config := config.(maxSlippageBps := changes.maxSlippageBps.value);
      }
      r := Ok(());
    }

    // jupiter_initialize_strategy

    method StrategyInitialize(record: Key) returns (r: Result<Event>)
      modifies this`strategies, vault
      ensures match InitializeStrategy(old(State()), record)
        case Ok(o) => r == Ok(o.event) && State() == o.accounts
        case Err(e) => r == Err(e)
    {
      var _ :- Validate(!closed, AccountNotInitialized);
      var _ :- Validate(record !in strategies, AccountAlreadyInUse);
      var _ :- Validate(config.status == Normal, ProtocolNotOperational);
      var _ :- Validate(vault.status == Normal, VaultNotOperational);
      // closing the strategy closes the vault's account of its mint, which must be neither of these
      var _ :- Validate(record != depositMint && record != shareMint, InvalidStrategyMint);
      strategies := strategies[record := vault.nextStrategyId];
      var _ :- vault.OpenStrategy();
      r := Ok(OtherEvent);
    }

    // vault_close_strategy

    method StrategyClose(record: Key, emptied: bool) returns (r: Result<Event>)
      modifies this`strategies, vault
      ensures match CloseStrategyRecord(old(State()), record, emptied)
        case Ok(o) => r == Ok(o.event) && State() == o.accounts
        case Err(e) => r == Err(e)
    {
      var _ :- Validate(!closed && record in strategies, AccountNotInitialized);
      var _ :- Validate(config.status != Paused, ProtocolNotWithdrawable);
      var _ :- Validate(vault.status != Paused, VaultNotWithdrawable);
      var _ :- vault.CloseStrategy();
      // the protocol's own close fails while the position still holds anything
      var _ :- Validate(emptied, TokenAccountNotEmpty);
      strategies := strategies - {record};
      r := Ok(OtherEvent);
    }

    // vault_close

    method VaultClose() returns (r: Result<Event>)
      modifies this`closed
      ensures match CloseVault(old(State()))
        case Ok(o) => r == Ok(o.event) && State() == o.accounts
        case Err(e) => r == Err(e)
    {
      var _ :- Validate(!closed, AccountNotInitialized);
      var _ :- Validate(ledger.shareSupply == 0, VaultHasOutstandingShares);
      var _ :- Validate(vault.pendingDeposits == 0 && vault.pendingWithdrawalShares == 0, VaultHasPendingRequests);
      var _ :- Validate(vault.unclaimedManagerFeeShares == 0 && vault.unclaimedPlatformFeeShares == 0, VaultHasUnclaimedFees);
      // what a strategy holds is out of reach once the vault is gone
      var _ :- Validate(vault.openStrategyCount == 0, VaultHasOpenStrategies);
      var _ :- Validate(vault.totalAssets == 0, VaultHasAssets);

      // none of the three token accounts may hold anything
      var balances := [ledger.idle, ledger.depositEscrow, ledger.shareEscrow];
      assert balances[0] == ledger.idle && balances[1] == ledger.depositEscrow && balances[2] == ledger.shareEscrow;
      for i := 0 to |balances|
        modifies {}
        invariant forall j :: 0 <= j < i ==> balances[j] == 0
      {
        var _ :- Validate(balances[i] == 0, TokenAccountNotEmpty);
      }
      closed := true;
      r := Ok(OtherEvent);
    }

    // What others do through the token program

    method OutsideCall(ix: Instruction) returns (r: Result<Event>)
      requires ix.IsOutside()
      modifies ledger
      ensures match Apply(old(State()), 0, ix)
        case Ok(o) => r == Ok(o.event) && State() == o.accounts
        case Err(e) => r == Err(e)
    {
      match ix
      case SharesTransfer(from, to, shares) => r := SharesCall(ix);
      case SharesBurn(from, shares) => r := SharesCall(ix);
      case SharesDonate(from, shares) => r := SharesSent(from, shares);
      case TokensDonate(from, amount) => r := TokensSent(from, amount);
      case TokensMove(_, _) => r := TokensCall(ix);
      case Trade(_) => r := TokensCall(ix);
    }

    method TokensCall(ix: Instruction) returns (r: Result<Event>)
      requires ix.TokensMove? || ix.Trade?
      modifies ledger
      ensures match Apply(old(State()), 0, ix)
        case Ok(o) => r == Ok(o.event) && State() == o.accounts
        case Err(e) => r == Err(e)
    {
      match ix
      case TokensMove(user, balance) =>
        ledger.tokens := ledger.tokens[user := balance];
        r := Ok(OtherEvent);
      case Trade(balance) =>
        var _ :- Validate(!closed, AccountNotInitialized);
        ledger.idle := balance;
        r := Ok(OtherEvent);
    }

    method SharesCall(ix: Instruction) returns (r: Result<Event>)
      requires ix.SharesTransfer? || ix.SharesBurn?
      modifies ledger
      ensures match Apply(old(State()), 0, ix)
        case Ok(o) => r == Ok(o.event) && State() == o.accounts
        case Err(e) => r == Err(e)
    {
      match ix
      case SharesTransfer(from, to, shares) =>
        var _ :- ledger.TransferShares(from, to, shares);
        r := Ok(OtherEvent);
      case SharesBurn(from, shares) =>
        var _ :- ledger.BurnHeld(from, shares);
        r := Ok(SharesBurned(shares));
    }

    method SharesSent(from: Key, shares: u64) returns (r: Result<Event>)
      modifies ledger
      ensures match DonateShares(old(State()), from, shares)
        case Ok(o) => r == Ok(o.event) && State() == o.accounts
        case Err(e) => r == Err(e)
    {
      var _ :- Validate(!closed, AccountNotInitialized);
      var _ :- ledger.WalletToShareEscrow(from, shares);
      r := Ok(SharesDonated(shares));
    }

    method TokensSent(from: Key, amount: u64) returns (r: Result<Event>)
      modifies ledger
      ensures match DonateTokens(old(State()), from, amount)
        case Ok(o) => r == Ok(o.event) && State() == o.accounts
        case Err(e) => r == Err(e)
    {
      var _ :- Validate(!closed, AccountNotInitialized);
      var _ :- ledger.WalletToDepositEscrow(from, amount);
      r := Ok(TokensDonated(amount));
    }

    // Transactions

    method OpeningInstruction(now: i64, t: Terms, ix: Instruction, payer: Key) returns (r: Result<Event>)
      requires ix.DepositCreate? || ix.WithdrawalCreate?
      modifies this`deposits, this`withdrawals, vault, ledger, rents
      ensures match Perform(old(State()), old(rents.State()), now, t, ix, payer)
        case Ok(d) => r == Ok(d.event) && State() == d.accounts && rents.State() == d.bank
        case Err(e) => r == Err(e)
    {
      match ix
      case DepositCreate(user, amount) => r := DepositRequestCreate(now, t, user, amount);
      case WithdrawalCreate(user, amount) => r := WithdrawalRequestCreate(now, t, user, amount);
    }

    method DepositInstruction(now: i64, t: Terms, ix: Instruction, payer: Key) returns (r: Result<Event>)
      requires ix.OnDeposit() && !ix.DepositCreate?
      modifies this`deposits, vault, ledger, rents
      ensures match Perform(old(State()), old(rents.State()), now, t, ix, payer)
        case Ok(d) => r == Ok(d.event) && State() == d.accounts && rents.State() == d.bank
        case Err(e) => r == Err(e)
    {
      match ix
      case DepositCancel(user) => r := DepositRequestCancel(t, user);
      case DepositReject(user) => r := DepositRequestReject(t, user, payer);
      case DepositResolve(user) => r := DepositRequestResolve(t, user, payer);
    }

    method WithdrawalInstruction(now: i64, t: Terms, ix: Instruction, payer: Key) returns (r: Result<Event>)
      requires ix.OnWithdrawal() && !ix.WithdrawalCreate?
      modifies this`withdrawals, vault, ledger, rents
      ensures match Perform(old(State()), old(rents.State()), now, t, ix, payer)
        case Ok(d) => r == Ok(d.event) && State() == d.accounts && rents.State() == d.bank
        case Err(e) => r == Err(e)
    {
      match ix
      case WithdrawalCancel(user) => r := WithdrawalRequestCancel(t, user);
      case WithdrawalReject(user) => r := WithdrawalRequestReject(t, user, payer);
      case WithdrawalResolve(user) => r := WithdrawalRequestResolve(t, user, payer);
    }

    method PricingInstruction(now: i64, ix: Instruction) returns (r: Result<Event>)
      requires ix.IsPost() || ix.ClaimManager? || ix.ClaimPlatform?
      modifies vault, ledger
      ensures match Apply(old(State()), now, ix)
        case Ok(o) => r == Ok(o.event) && State() == o.accounts
        case Err(e) => r == Err(e)
    {
      match ix
      case NavUpdate(totalAssets) => r := NavUpdate(now, totalAssets);
      case NavOverride(totalAssets) => r := NavOverride(now, totalAssets);
      case ClaimManager => r := ClaimManager();
      case ClaimPlatform => r := ClaimPlatform();
    }

    method AdminInstruction(now: i64, ix: Instruction) returns (r: Result<Event>)
      requires !ix.IsRequest() && !ix.IsOutside() && !ix.IsPost() && !ix.ClaimManager? && !ix.ClaimPlatform?
      modifies this`config, this`strategies, this`closed, vault
      ensures match Apply(old(State()), now, ix)
        case Ok(o) => r == Ok(o.event) && State() == o.accounts
        case Err(e) => r == Err(e)
    {
      match ix
      case VaultUpdate(args) => r := VaultUpdate(now, args);
      case VaultPause => r := VaultPause();
      case ConfigUpdate(changes) => r := ConfigUpdate(changes);
      case StrategyInitialize(record) => r := StrategyInitialize(record);
      case StrategyClose(record, emptied) => r := StrategyClose(record, emptied);
      case VaultClose => r := VaultClose();
    }

    /** Instructions that move no lamports. */
    method VaultInstruction(now: i64, ix: Instruction) returns (r: Result<Event>)
      requires !ix.IsRequest()
      modifies this`config, this`strategies, this`closed, vault, ledger
      ensures match Apply(old(State()), now, ix)
        case Ok(o) => r == Ok(o.event) && State() == o.accounts
        case Err(e) => r == Err(e)
    {
      if ix.IsOutside() {
        r := OutsideCall(ix);
      } else if ix.IsPost() || ix.ClaimManager? || ix.ClaimPlatform? {
        r := PricingInstruction(now, ix);
      } else {
        r := AdminInstruction(now, ix);
      }
    }

    method Dispatch(now: i64, t: Terms, ix: Instruction, payer: Key) returns (r: Result<Event>)
      modifies this, vault, ledger, rents
      ensures match Perform(old(State()), old(rents.State()), now, t, ix, payer)
        case Ok(d) => r == Ok(d.event) && State() == d.accounts && rents.State() == d.bank
        case Err(e) => r == Err(e)
    {
      if ix.DepositCreate? || ix.WithdrawalCreate? {
        r := OpeningInstruction(now, t, ix, payer);
      } else if ix.OnDeposit() {
        r := DepositInstruction(now, t, ix, payer);
      } else if ix.OnWithdrawal() {
        r := WithdrawalInstruction(now, t, ix, payer);
      } else {
        r := VaultInstruction(now, ix);
      }
    }

    /** One transaction, paid for by `payer`: on an error every account is as it was before. */
    method Process(now: i64, t: Terms, ix: Instruction, payer: Key) returns (r: Result<Event>)
      modifies this, vault, ledger, rents
      ensures match Perform(old(State()), old(rents.State()), now, t, ix, payer)
        case Ok(d) => r == Ok(d.event) && State() == d.accounts && rents.State() == d.bank
        case Err(e) => r == Err(e) && State() == old(State()) && rents.State() == old(rents.State())
    {
      var before, rentsBefore := State(), rents.State();
      r := Dispatch(now, t, ix, payer);
      if r.Err? {
        Restore(before, rentsBefore);
      }
    }
  }
}
