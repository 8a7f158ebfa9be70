/**
 The program as a state machine over its accounts: one function per instruction, from the accounts
 before to the accounts after and the event emitted, or to the error that aborts the transaction.
 Token transfers, mints and burns are exact balance moves. What the outside world can do to these
 accounts without the program (donating tokens, moving and burning shares, the manager's trades) is
 part of `Instruction` as well.
 */
module Protocol {
  import opened Words
  import opened Tables
  import opened VaultModel
  import opened Requests

  const DEFAULT_MAX_SLIPPAGE_BPS := 300

  datatype Config = Config(
    status: Status,
    treasuryAuthority: Key,
    platformPerformanceFeeBps: u16,
    platformManagementFeeBps: u16,
    maxNavDeviationBps: u16,
    maxEpochOutflowBps: u16,
    pendingAdmin: Key,
    navUpdater: Key,
    guardian: Key,
    maxSlippageBps: u16,
    nextVaultId: u64)
  {
    /** Configs from before the field existed hold zero. */
    function MaxSlippageBps(): u16 {
      if maxSlippageBps == 0 then DEFAULT_MAX_SLIPPAGE_BPS else maxSlippageBps
    }

    predicate Valid() {
      platformPerformanceFeeBps <= MAX_BPS && platformManagementFeeBps <= MAX_BPS
      && maxNavDeviationBps <= MAX_BPS && maxEpochOutflowBps <= MAX_BPS
    }
  }

  /** The key that stands for no key at all. */
  const NO_KEY: Key := 0

  datatype ConfigUpdateArgs = ConfigUpdateArgs(
    treasuryAuthority: Option<Key>,
    platformPerformanceFeeBps: Option<u16>,
    platformManagementFeeBps: Option<u16>,
    maxNavDeviationBps: Option<u16>,
    maxEpochOutflowBps: Option<u16>,
    status: Option<Status>,
    pendingAdmin: Option<Key>,
    navUpdater: Option<Key>,
    guardian: Option<Key>,
    maxSlippageBps: Option<u16>)

  /** An omitted rate, or one of at most 100%. */
  predicate ValidBps(bps: Option<u16>) {
    bps.UnwrapOr(0) <= MAX_BPS
  }

  datatype Accounts = Accounts(
    vault: VaultState,
    config: Config,
    authority: Key,              // the manager of the vault
    depositMint: Key,
    shareMint: Key,
    deposits: RequestTable,      // live deposit requests, by depositor
    withdrawals: RequestTable,   // live withdrawal requests, by withdrawer
    tokens: Table,               // deposit-mint wallets
    shares: Table,               // share wallets
    shareSupply: u64,            // shares minted and not burned
    depositEscrow: nat,
    shareEscrow: nat,
    idle: nat,                   // the vault's own deposit-mint account
    strategies: map<Key, u32>,   // strategy records: protocol account to strategy id
    closed: bool)                // the vault account has been closed
  {
    function Supply(): nat { vault.VirtualSupply(shareSupply) }
  }

  datatype VaultUpdateArgs = VaultUpdateArgs(
    performanceFeeBps: Option<u16>,
    managementFeeBps: Option<u16>,
    depositCap: Option<u64>,
    minDeposit: Option<u64>,
    minWithdrawalShares: Option<u64>,
    status: Option<Status>,
    depositPaused: Option<bool>,
    withdrawalPaused: Option<bool>)
  {
    predicate TouchesFees() { performanceFeeBps.Some? || managementFeeBps.Some? }
  }

  datatype Instruction =
    | DepositCreate(user: Key, amount: u64)
    | DepositCancel(user: Key)
    | DepositReject(user: Key)
    | DepositResolve(user: Key)
    | WithdrawalCreate(user: Key, amount: u64)
    | WithdrawalCancel(user: Key)
    | WithdrawalReject(user: Key)
    | WithdrawalResolve(user: Key)
    | NavUpdate(totalAssets: u64)
    | NavOverride(totalAssets: u64)
    | ClaimManager
    | ClaimPlatform
    | VaultUpdate(args: VaultUpdateArgs)
    | VaultPause
    | ConfigUpdate(changes: ConfigUpdateArgs)
    | StrategyInitialize(record: Key)
    | StrategyClose(record: Key, emptied: bool)
    | VaultClose
      // not instructions of this program
    | SharesTransfer(from: Key, to: Key, shares: u64)
    | SharesBurn(from: Key, shares: u64)
    | SharesDonate(from: Key, shares: u64)    // sent to the share escrow
    | TokensDonate(from: Key, amount: u64)    // sent to the deposit escrow
    | TokensMove(user: Key, balance: nat)     // a wallet changes for outside reasons
    | Trade(balance: nat)                     // strategies and donations move the idle balance
  {
    predicate OnDeposit() { DepositCreate? || DepositCancel? || DepositReject? || DepositResolve? }

    predicate OnWithdrawal() { WithdrawalCreate? || WithdrawalCancel? || WithdrawalReject? || WithdrawalResolve? }

    predicate IsRequest() { OnDeposit() || OnWithdrawal() }

    predicate IsPost() { NavUpdate? || NavOverride? }

    /** The deviation bound that a post is held to. */
    function BoundOf(config: Config): Option<u16> {
      if NavUpdate? then Some(config.maxNavDeviationBps) else None
    }

    /** Not an instruction of the program but something others do to its token accounts. */
    predicate IsOutside() {
      SharesTransfer? || SharesBurn? || SharesDonate? || TokensDonate? || TokensMove? || Trade?
    }
  }

  /** Who fees are paid to. */
  datatype Payee = Manager | Platform

  /** The event log. `supply` and `bound` are recorded for the specifications; the rest is emitted. */
  datatype Event =
    | DepositRequested(user: Key, amount: u64)
    | DepositReturned(user: Key, amount: u64)
    | DepositResolved(user: Key, amount: u64, output: u64, navPerShare: u64)
    | WithdrawalRequested(user: Key, amount: u64)
    | WithdrawalReturned(user: Key, amount: u64)
    | WithdrawalResolved(user: Key, amount: u64, output: u64, navPerShare: u64)
    | NavPosted(totalAssets: u64, navPerShare: u64, feeShares: NavFeeShares, supply: nat, bound: Option<u16>)
    | FeesClaimed(payee: Payee, authority: Key, shares: u64)
    | FeesUpdated(requested: Rates)
    | SharesBurned(shares: u64)
    | SharesDonated(shares: u64)
    | TokensDonated(amount: u64)
    | OtherEvent

  datatype Outcome = Outcome(accounts: Accounts, event: Event)

  // Gates shared by several instructions

  function Operational(a: Accounts): Result<()> {
    if a.closed then Err(AccountNotInitialized) else
    if a.config.status != Normal then Err(ProtocolNotOperational) else
    Validate(a.vault.status == Normal, VaultNotOperational)
  }

  function DepositsOpen(a: Accounts): Result<()> {
    match Operational(a) case Err(e) => Err(e) case Ok(_) =>
    Validate(!a.vault.depositPaused, VaultDepositPaused)
  }

  function Withdrawable(a: Accounts): Result<()> {
    if a.closed then Err(AccountNotInitialized) else
    if a.config.status == Paused then Err(ProtocolNotWithdrawable) else
    Validate(a.vault.status != Paused, VaultNotWithdrawable)
  }

  function WithdrawalsOpen(a: Accounts): Result<()> {
    match Withdrawable(a) case Err(e) => Err(e) case Ok(_) =>
    Validate(!a.vault.withdrawalPaused, VaultWithdrawalPaused)
  }

  function Live(requests: RequestTable, user: Key): Result<Request> {
    if user in requests then Ok(requests[user]) else Err(AccountNotInitialized)
  }

  /** The request an instruction adds to: the live one, or a new one of the current epoch. */
  function OpenOrLive(requests: RequestTable, user: Key, now: i64): Request {
    if user in requests then requests[user] else NewRequest(Epoch(now), now)
  }

  // Deposits

  /** What is checked before anything is added to a deposit request. */
  function MayDeposit(a: Accounts, amount: u64): Result<()> {
    if a.closed then Err(AccountNotInitialized) else
    if amount == 0 then Err(InvalidTransferAmount) else
    DepositsOpen(a)
  }

  function CreateDeposit(a: Accounts, now: i64, user: Key, amount: u64): Result<Outcome> {
    match MayDeposit(a, amount) case Err(e) => Err(e) case Ok(_) =>
    match AddTo(OpenOrLive(a.deposits, user, now), amount, Epoch(now)) case Err(e) => Err(e) case Ok(request) =>
    match RequestDeposit(a.vault, amount) case Err(e) => Err(e) case Ok(vault) =>
    if Balance(a.tokens, user) < amount then Err(TokenBalanceTooLow) else
      Ok(Outcome(
           a.(vault := vault,
              deposits := a.deposits[user := request],
              tokens := Debit(a.tokens, user, amount),
              depositEscrow := a.depositEscrow + amount),
           DepositRequested(user, amount)))
  }

  /** The refund that cancel and reject have in common. */
  function ReturnDeposit(a: Accounts, user: Key, amount: u64): Result<Outcome> {
    match CancelDeposit(a.vault, amount) case Err(e) => Err(e) case Ok(vault) =>
    if a.depositEscrow < amount then Err(TokenBalanceTooLow) else
      Ok(Outcome(
           a.(vault := vault,
              deposits := a.deposits - {user},
              tokens := Credit(a.tokens, user, amount),
              depositEscrow := a.depositEscrow - amount),
           DepositReturned(user, amount)))
  }

  function CancelDepositRequest(a: Accounts, user: Key): Result<Outcome> {
    if a.closed then Err(AccountNotInitialized) else
    match Live(a.deposits, user) case Err(e) => Err(e) case Ok(request) =>
    if !request.DepositCancellable(a.vault.navEpoch, a.vault.navPerShare) then Err(RequestNotCancellable) else
    ReturnDeposit(a, user, request.amount)
  }

  function RejectDepositRequest(a: Accounts, user: Key): Result<Outcome> {
    if a.closed then Err(AccountNotInitialized) else
    match Live(a.deposits, user) case Err(e) => Err(e) case Ok(request) =>
    ReturnDeposit(a, user, request.amount)
  }

  /** The amount of a deposit that may settle now. */
  function DepositDue(a: Accounts, user: Key): Result<u64> {
    if a.closed then Err(AccountNotInitialized) else
    match Live(a.deposits, user) case Err(e) => Err(e) case Ok(request) =>
    match DepositsOpen(a) case Err(e) => Err(e) case Ok(_) =>
    if request.Resolvable(a.vault.navEpoch) then Ok(request.amount) else Err(RequestNotResolvable)
  }

  /** A deposit that the vault has priced: the tokens into the vault, the shares to their owner. */
  function PayDeposit(a: Accounts, user: Key, amount: u64, minted: u64): Result<Outcome> {
    if a.depositEscrow < amount then Err(TokenBalanceTooLow)
    else if a.shareSupply + minted > U64_MAX then Err(TokenSupplyOverflow)
    else
      Ok(Outcome(
           a.(deposits := a.deposits - {user},
              depositEscrow := a.depositEscrow - amount,
              idle := a.idle + amount,
              shares := Credit(a.shares, user, minted),
              shareSupply := a.shareSupply + minted),
           DepositResolved(user, amount, minted, a.vault.navPerShare)))
  }

  function ResolveDepositRequest(a: Accounts, user: Key): Result<Outcome> {
    match DepositDue(a, user) case Err(e) => Err(e) case Ok(amount) =>
    match ResolveDeposit(a.vault, amount) case Err(e) => Err(e) case Ok(settled) =>
    PayDeposit(a.(vault := settled.vault), user, amount, settled.output)
  }

  // Withdrawals

  /** What is checked before anything is added to a withdrawal request. */
  function MayWithdraw(a: Accounts, shares: u64): Result<()> {
    if a.closed then Err(AccountNotInitialized) else
    if shares == 0 then Err(InvalidSharesAmount) else
    WithdrawalsOpen(a)
  }

  function CreateWithdrawal(a: Accounts, now: i64, user: Key, amount: u64): Result<Outcome> {
    match MayWithdraw(a, amount) case Err(e) => Err(e) case Ok(_) =>
    match AddTo(OpenOrLive(a.withdrawals, user, now), amount, Epoch(now)) case Err(e) => Err(e) case Ok(request) =>
    match RequestWithdrawal(a.vault, amount, Balance(a.shares, user)) case Err(e) => Err(e) case Ok(vault) =>
    if Balance(a.shares, user) < amount then Err(TokenBalanceTooLow) else
      Ok(Outcome(
           a.(vault := vault,
              withdrawals := a.withdrawals[user := request],
              shares := Debit(a.shares, user, amount),
              shareEscrow := a.shareEscrow + amount),
           WithdrawalRequested(user, amount)))
  }

  function ReturnWithdrawal(a: Accounts, user: Key, amount: u64): Result<Outcome> {
    match CancelWithdrawal(a.vault, amount) case Err(e) => Err(e) case Ok(vault) =>
    if a.shareEscrow < amount then Err(TokenBalanceTooLow) else
      Ok(Outcome(
           a.(vault := vault,
              withdrawals := a.withdrawals - {user},
              shares := Credit(a.shares, user, amount),
              shareEscrow := a.shareEscrow - amount),
           WithdrawalReturned(user, amount)))
  }

  function CancelWithdrawalRequest(a: Accounts, user: Key): Result<Outcome> {
    if a.closed then Err(AccountNotInitialized) else
    match Live(a.withdrawals, user) case Err(e) => Err(e) case Ok(request) =>
    if !request.WithdrawalCancellable(a.vault.navEpoch) then Err(RequestNotCancellable) else
    ReturnWithdrawal(a, user, request.amount)
  }

  function RejectWithdrawalRequest(a: Accounts, user: Key): Result<Outcome> {
    if a.closed then Err(AccountNotInitialized) else
    match Live(a.withdrawals, user) case Err(e) => Err(e) case Ok(request) =>
    ReturnWithdrawal(a, user, request.amount)
  }

  /** The shares of a withdrawal that may settle now. */
  function WithdrawalDue(a: Accounts, user: Key): Result<u64> {
    if a.closed then Err(AccountNotInitialized) else
    match Live(a.withdrawals, user) case Err(e) => Err(e) case Ok(request) =>
    match WithdrawalsOpen(a) case Err(e) => Err(e) case Ok(_) =>
    if request.Resolvable(a.vault.navEpoch) then Ok(request.amount) else Err(RequestNotResolvable)
  }

  /** A withdrawal that the vault has priced: the shares are burned, and what they are worth leaves the idle balance. */
  function PayWithdrawal(a: Accounts, user: Key, burned: u64, amount: u64): Result<Outcome>
    requires amount <= a.idle
  {
    if a.shareEscrow < burned || a.shareSupply < burned then Err(TokenBalanceTooLow) else
      Ok(Outcome(
           a.(withdrawals := a.withdrawals - {user},
              shareEscrow := a.shareEscrow - burned,
              shareSupply := a.shareSupply - burned,
              idle := a.idle - amount,
              tokens := if amount > 0 then Credit(a.tokens, user, amount) else a.tokens),
           WithdrawalResolved(user, burned, amount, a.vault.navPerShare)))
  }

  function ResolveWithdrawalRequest(a: Accounts, user: Key): Result<Outcome> {
    match WithdrawalDue(a, user) case Err(e) => Err(e) case Ok(burned) =>
    match ResolveWithdrawal(a.vault, burned) case Err(e) => Err(e) case Ok(settled) =>
    if a.idle < settled.output then Err(InsufficientFunds) else
    PayWithdrawal(a.(vault := settled.vault), user, burned, settled.output)
  }

  // NAV

  function PostArgs(a: Accounts, now: i64, totalAssets: u64, bound: Option<u16>): NavUpdateArgs {
    NavUpdateArgs(
      totalAssets, a.shareSupply, a.config.platformPerformanceFeeBps, a.config.platformManagementFeeBps, bound, now)
  }

  /** `nav_update` with the configured bound, `nav_override` without one. */
  function Post(a: Accounts, now: i64, totalAssets: u64, bound: Option<u16>): Result<Outcome> {
    if a.closed then Err(AccountNotInitialized) else
    if totalAssets < a.idle then Err(TotalAssetsBelowIdleBalance) else
    match PostNav(a.vault, PostArgs(a, now, totalAssets, bound)) case Err(e) => Err(e) case Ok(post) =>
    Ok(Outcome(
         a.(vault := post.vault),
         NavPosted(totalAssets, post.vault.navPerShare, post.feeShares, a.Supply(), bound)))
  }

  // Fees

  /** Mints claimed fee shares to `authority`. */
  function MintClaim(a: Accounts, claim: Settlement, payee: Payee, authority: Key): Result<Outcome> {
    if a.shareSupply + claim.output > U64_MAX then Err(TokenSupplyOverflow) else
      Ok(Outcome(
           a.(vault := claim.vault,
              shares := Credit(a.shares, authority, claim.output),
              shareSupply := a.shareSupply + claim.output),
           FeesClaimed(payee, authority, claim.output)))
  }

  function ClaimManagerFees(a: Accounts): Result<Outcome> {
    if a.closed then Err(AccountNotInitialized) else
    match ClaimManagerFee(a.vault) case Err(e) => Err(e) case Ok(claim) =>
    MintClaim(a, claim, Manager, a.authority)
  }

  function ClaimPlatformFees(a: Accounts): Result<Outcome> {
    if a.closed then Err(AccountNotInitialized) else
    match ClaimPlatformFee(a.vault) case Err(e) => Err(e) case Ok(claim) =>
    MintClaim(a, claim, Platform, a.config.treasuryAuthority)
  }

  // Configuration

  /** Everything a vault update changes apart from the fees. */
  function ApplySettings(v: VaultState, args: VaultUpdateArgs): Result<VaultState> {
    if args.minDeposit == Some(0) then Err(InvalidMinimumAmount) else
    if args.minWithdrawalShares == Some(0) then Err(InvalidMinimumAmount) else
    Ok(v.(depositCap := args.depositCap.UnwrapOr(v.depositCap),
          minDeposit := args.minDeposit.UnwrapOr(v.minDeposit),
          minWithdrawalShares := args.minWithdrawalShares.UnwrapOr(v.minWithdrawalShares),
          status := args.status.UnwrapOr(v.status),
          depositPaused := args.depositPaused.UnwrapOr(v.depositPaused),
          withdrawalPaused := args.withdrawalPaused.UnwrapOr(v.withdrawalPaused)))
  }

  /** Without a requested rate the fee schedule stays as it is, whatever else is updated. */
  function UpdateVault(a: Accounts, now: i64, args: VaultUpdateArgs): Result<Outcome> {
    if a.closed then Err(AccountNotInitialized) else
    var requested :=
      if args.TouchesFees() then UpdateFees(a.vault, args.performanceFeeBps, args.managementFeeBps, now) else Ok(a.vault);
    match requested case Err(e) => Err(e) case Ok(withFees) =>
    match ApplySettings(withFees, args) case Err(e) => Err(e) case Ok(vault) =>
    Ok(Outcome(
         a.(vault := vault),
         if args.TouchesFees()
         then FeesUpdated(RequestedRates(a.vault, args.performanceFeeBps, args.managementFeeBps))
         else OtherEvent))
  }

  function PauseVault(a: Accounts): Result<Outcome> {
    if a.closed then Err(AccountNotInitialized) else
    Ok(Outcome(a.(vault := a.vault.(status := Paused)), OtherEvent))
  }

  function ChangedConfig(c: Config, changes: ConfigUpdateArgs): Result<Config> {
    if changes.pendingAdmin == Some(NO_KEY) || changes.navUpdater == Some(NO_KEY)
       || changes.treasuryAuthority == Some(NO_KEY) || changes.guardian == Some(NO_KEY)
    then Err(InvalidPubkey) else
    if !ValidBps(changes.platformPerformanceFeeBps) || !ValidBps(changes.platformManagementFeeBps)
       || !ValidBps(changes.maxNavDeviationBps) || !ValidBps(changes.maxEpochOutflowBps)
       || !ValidBps(changes.maxSlippageBps) || changes.maxSlippageBps == Some(0)
    then Err(InvalidBasisPoints) else
    Ok(Config(
         changes.status.UnwrapOr(c.status),
         changes.treasuryAuthority.UnwrapOr(c.treasuryAuthority),
         changes.platformPerformanceFeeBps.UnwrapOr(c.platformPerformanceFeeBps),
         changes.platformManagementFeeBps.UnwrapOr(c.platformManagementFeeBps),
         changes.maxNavDeviationBps.UnwrapOr(c.maxNavDeviationBps),
         changes.maxEpochOutflowBps.UnwrapOr(c.maxEpochOutflowBps),
         changes.pendingAdmin.UnwrapOr(c.pendingAdmin),
         changes.navUpdater.UnwrapOr(c.navUpdater),
         changes.guardian.UnwrapOr(c.guardian),
         changes.maxSlippageBps.UnwrapOr(c.maxSlippageBps),
         c.nextVaultId))
  }

  function UpdateConfig(a: Accounts, changes: ConfigUpdateArgs): Result<Outcome> {
    match ChangedConfig(a.config, changes) case Err(e) => Err(e) case Ok(config) =>
    Ok(Outcome(a.(config := config), OtherEvent))
  }

  // Strategies and closing

  function InitializeStrategy(a: Accounts, record: Key): Result<Outcome> {
    if a.closed then Err(AccountNotInitialized) else
    if record in a.strategies then Err(AccountAlreadyInUse) else
    match Operational(a) case Err(e) => Err(e) case Ok(_) =>
    if record == a.depositMint || record == a.shareMint then Err(InvalidStrategyMint) else
    match OpenStrategy(a.vault) case Err(e) => Err(e) case Ok(vault) =>
    Ok(Outcome(a.(vault := vault, strategies := a.strategies[record := a.vault.nextStrategyId]), OtherEvent))
  }

  /** `emptied` says whether the protocol accounts behind the record could be closed. */
  function CloseStrategyRecord(a: Accounts, record: Key, emptied: bool): Result<Outcome> {
    if a.closed || record !in a.strategies then Err(AccountNotInitialized) else
    match Withdrawable(a) case Err(e) => Err(e) case Ok(_) =>
    match CloseStrategy(a.vault) case Err(e) => Err(e) case Ok(vault) =>
    if !emptied then Err(TokenAccountNotEmpty) else
    Ok(Outcome(a.(vault := vault, strategies := a.strategies - {record}), OtherEvent))
  }

  function CloseVault(a: Accounts): Result<Outcome> {
    if a.closed then Err(AccountNotInitialized) else
    if a.shareSupply != 0 then Err(VaultHasOutstandingShares) else
    if a.vault.pendingDeposits != 0 || a.vault.pendingWithdrawalShares != 0 then Err(VaultHasPendingRequests) else
    if a.vault.unclaimedManagerFeeShares != 0 || a.vault.unclaimedPlatformFeeShares != 0 then Err(VaultHasUnclaimedFees) else
    if a.vault.openStrategyCount != 0 then Err(VaultHasOpenStrategies) else
    if a.vault.totalAssets != 0 then Err(VaultHasAssets) else
    if a.idle != 0 || a.depositEscrow != 0 || a.shareEscrow != 0 then Err(TokenAccountNotEmpty) else
    Ok(Outcome(a.(closed := true), OtherEvent))
  }

  // The token program, used by others on these accounts

  function TransferShares(a: Accounts, from: Key, to: Key, shares: u64): Result<Outcome> {
    if Balance(a.shares, from) < shares then Err(TokenBalanceTooLow) else
      Ok(Outcome(a.(shares := Credit(Debit(a.shares, from, shares), to, shares)), OtherEvent))
  }

  function BurnShares(a: Accounts, from: Key, shares: u64): Result<Outcome> {
    if Balance(a.shares, from) < shares || a.shareSupply < shares then Err(TokenBalanceTooLow) else
      Ok(Outcome(
           a.(shares := Debit(a.shares, from, shares), shareSupply := a.shareSupply - shares),
           SharesBurned(shares)))
  }

  function DonateShares(a: Accounts, from: Key, shares: u64): Result<Outcome> {
    if a.closed then Err(AccountNotInitialized) else
    if Balance(a.shares, from) < shares then Err(TokenBalanceTooLow) else
      Ok(Outcome(
           a.(shares := Debit(a.shares, from, shares), shareEscrow := a.shareEscrow + shares),
           SharesDonated(shares)))
  }

  function DonateTokens(a: Accounts, from: Key, amount: u64): Result<Outcome> {
    if a.closed then Err(AccountNotInitialized) else
    if Balance(a.tokens, from) < amount then Err(TokenBalanceTooLow) else
      Ok(Outcome(
           a.(tokens := Debit(a.tokens, from, amount), depositEscrow := a.depositEscrow + amount),
           TokensDonated(amount)))
  }

  function Apply(a: Accounts, now: i64, ix: Instruction): Result<Outcome> {
    match ix
    case DepositCreate(user, amount) => CreateDeposit(a, now, user, amount)
    case DepositCancel(user) => CancelDepositRequest(a, user)
    case DepositReject(user) => RejectDepositRequest(a, user)
    case DepositResolve(user) => ResolveDepositRequest(a, user)
    case WithdrawalCreate(user, amount) => CreateWithdrawal(a, now, user, amount)
    case WithdrawalCancel(user) => CancelWithdrawalRequest(a, user)
    case WithdrawalReject(user) => RejectWithdrawalRequest(a, user)
    case WithdrawalResolve(user) => ResolveWithdrawalRequest(a, user)
    case NavUpdate(totalAssets) => Post(a, now, totalAssets, Some(a.config.maxNavDeviationBps))
    case NavOverride(totalAssets) => Post(a, now, totalAssets, None)
    case ClaimManager => ClaimManagerFees(a)
    case ClaimPlatform => ClaimPlatformFees(a)
    case VaultUpdate(args) => UpdateVault(a, now, args)
    case VaultPause => PauseVault(a)
    case ConfigUpdate(changes) => UpdateConfig(a, changes)
    case StrategyInitialize(record) => InitializeStrategy(a, record)
    case StrategyClose(record, emptied) => CloseStrategyRecord(a, record, emptied)
    case VaultClose => CloseVault(a)
    case SharesTransfer(from, to, shares) => TransferShares(a, from, to, shares)
    case SharesBurn(from, shares) => BurnShares(a, from, shares)
    case SharesDonate(from, shares) => DonateShares(a, from, shares)
    case TokensDonate(from, amount) => DonateTokens(a, from, amount)
    case TokensMove(user, balance) => Ok(Outcome(a.(tokens := a.tokens[user := balance]), OtherEvent))
    case Trade(balance) =>
      if a.closed then Err(AccountNotInitialized) else Ok(Outcome(a.(idle := balance), OtherEvent))
  }
}
