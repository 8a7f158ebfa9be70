/**
 The swap handler. The route is the manager's and the call into Jupiter may do anything to the two balances;
 the handler checks what actually moved.
 */
module JupiterSwap {
  import opened Words
  import opened Arithmetic
  import opened Tables
  import opened VaultModel
  import opened Protocol
  import opened JupiterRoute
  import opened JupiterAccounts

  /** What the handler reads of the protocol, the vault and the strategy. */
  datatype SwapContext = SwapContext(
    config: Config,
    vaultStatus: Status,
    depositMint: Key,
    shareMint: Key,
    strategyOf: Key,              // the protocol account that the strategy's address derives from
    strategyTarget: Option<Key>,  // the strategy's target mint, if it is a swap strategy
    accounts: SwapAccounts)

  datatype Balances = Balances(source: u64, destination: u64)

  datatype Swapped = Swapped(sourceSpent: u64, destinationReceived: u64)

  /** Gates and mints: one leg is the deposit mint, the other the strategy's target. */
  function CheckSwap(c: SwapContext): Result<()> {
    var s := c.accounts;
    if c.config.status != Normal then Err(ProtocolNotOperational) else
    if c.vaultStatus != Normal then Err(VaultNotOperational) else
    if s.sourceMint == s.destinationMint then Err(InvalidSwapMints) else
    if s.destinationMint == c.shareMint then Err(InvalidStrategyMint) else
    if s.sourceMint != c.depositMint && s.destinationMint != c.depositMint then Err(InvalidDepositMint) else
    var target := if s.sourceMint == c.depositMint then s.destinationMint else s.sourceMint;
    if c.strategyOf != target then Err(InvalidStrategy) else
    if c.strategyTarget.None? then Err(InvalidStrategyType) else
    Validate(c.strategyTarget.value == target, InvalidTargetMint)
  }

  /** What the manager's request must pass before the call. */
  function Admit(c: SwapContext, data: seq<byte>, amount: u64, slippageBps: u16, remaining: seq<Account>): Result<RouteArgs> {
    match CheckSwap(c) case Err(e) => Err(e) case Ok(_) =>
    match FromSwapData(data) case Err(e) => Err(e) case Ok(variant) =>
    match CheckAmountAndSlippage(data, amount, slippageBps, c.config.MaxSlippageBps()) case Err(e) => Err(e) case Ok(args) =>
    match CheckRemaining(variant, c.accounts, remaining) case Err(e) => Err(e) case Ok(_) =>
    Ok(args)
  }

  /** The checks on what moved. */
  function Judge(mode: SwapMode, args: RouteArgs, cap: u16, moved: Swapped): Result<Swapped> {
    match mode
    case ExactIn =>
      (match MinAmountOut(args.quotedAmount, cap) case Err(e) => Err(e) case Ok(least) =>
       if moved.destinationReceived < least then Err(SwapOutputBelowMinimum) else Ok(moved))
    case ExactOut =>
      if moved.destinationReceived < args.amount then Err(SwapOutputBelowMinimum) else
      match MaxAmountIn(args.quotedAmount, cap) case Err(e) => Err(e) case Ok(most) =>
      if moved.sourceSpent > most then Err(SwapOutputBelowMinimum) else Ok(moved)
  }

  /** The whole handler, where the call leaves the balances at `after` or fails. */
  function SwapResult(c: SwapContext, before: Balances, data: seq<byte>, amount: u64, slippageBps: u16,
                      remaining: seq<Account>, after: Option<Balances>): Result<Swapped> {
    match Admit(c, data, amount, slippageBps, remaining) case Err(e) => Err(e) case Ok(args) =>
    if after.None? then Err(CpiFailed) else
    match SubU64(after.value.destination, before.destination) case Err(e) => Err(e) case Ok(received) =>
    match SubU64(before.source, after.value.source) case Err(e) => Err(e) case Ok(spent) =>
    Judge(FromSwapData(data).value.Mode(), args, c.config.MaxSlippageBps(), Swapped(spent, received))
  }

  class SwapVault {
    var context: SwapContext
    var source: u64
    var destination: u64
    var lastActionTs: i64

    constructor (c: SwapContext, b: Balances)
      ensures context == c && Balances(source, destination) == b
    {
      context, source, destination, lastActionTs := c, b.source, b.destination, 0;
    }

    /** The call into Jupiter: foreign code that leaves the balances anywhere, or fails. */
    method Relay(lists: AccountLists, data: seq<byte>, after: Option<Balances>) returns (r: Result<()>)
      modifies `source, `destination
      ensures match after
        case Some(b) => r == Ok(()) && Balances(source, destination) == b
        case None => r == Err(CpiFailed)
    {
      if after.None? { return Err(CpiFailed); }
      source, destination := after.value.source, after.value.destination;
      return Ok(());
    }

    method Swap(now: i64, data: seq<byte>, amount: u64, slippageBps: u16, remaining: seq<Account>, after: Option<Balances>)
      returns (r: Result<Swapped>)
      modifies `source, `destination, `lastActionTs
      ensures r == SwapResult(context, old(Balances(source, destination)), data, amount, slippageBps, remaining, after)
      ensures r.Ok? ==> after == Some(Balances(source, destination)) && lastActionTs == now
    {
      var _ :- CheckSwap(context);
      lastActionTs := now;
      var maxSlippageBps := context.config.MaxSlippageBps();
      var variant :- FromSwapData(data);
      var args :- CheckAmountAndSlippage(data, amount, slippageBps, maxSlippageBps);
      var sourceBefore, destinationBefore := source, destination;

      var lists :- BuildAccountLists(variant, context.accounts, remaining);
      var _ :- Relay(lists, data, after);

      // nothing is trusted of the route but the balances it leaves
      var received :- SubU64(destination, destinationBefore);
      var spent :- SubU64(sourceBefore, source);
      match variant.Mode() {
        case ExactIn =>
          var least :- MinAmountOut(args.quotedAmount, maxSlippageBps);
          var _ :- Validate(received >= least, SwapOutputBelowMinimum);
        case ExactOut =>
          var _ :- Validate(received >= args.amount, SwapOutputBelowMinimum);
          var most :- MaxAmountIn(args.quotedAmount, maxSlippageBps);
          var _ :- Validate(spent <= most, SwapOutputBelowMinimum);
      }
      r := Ok(Swapped(spent, received));
    }
  }

  // Between which mints

  /** The mints of the two legs, and the price cap in force, whatever the rest of the account holds. */
  lemma SwapsTargetOnly(c: SwapContext)
    ensures var s := c.accounts;
      CheckSwap(c).Ok? <==>
      c.config.status == Normal && c.vaultStatus == Normal
      && s.sourceMint != s.destinationMint && s.destinationMint != c.shareMint
      && ((s.sourceMint == c.depositMint && s.destinationMint == c.strategyOf && c.strategyTarget == Some(s.destinationMint))
          || (s.destinationMint == c.depositMint && s.sourceMint == c.strategyOf && c.strategyTarget == Some(s.sourceMint)))
  {
  }

  // What an accepted swap guarantees, whatever the call did

  /** Reading the route arguments of any admitted data. */
  function ArgsOf(data: seq<byte>): Result<RouteArgs> {
    match FromSwapData(data) case Err(e) => Err(e) case Ok(variant) =>
    if variant.UsesTokenLedger() then ParseWithTokenLedger(data) else Parse(data)
  }

  lemma AdmittedArgs(c: SwapContext, data: seq<byte>, amount: u64, slippageBps: u16, remaining: seq<Account>)
    requires Admit(c, data, amount, slippageBps, remaining).Ok?
    ensures ArgsOf(data) == Admit(c, data, amount, slippageBps, remaining)
    ensures var args := ArgsOf(data).value;
      args.slippageBps <= slippageBps <= c.config.MaxSlippageBps()
      && (!FromSwapData(data).value.UsesTokenLedger() ==> args.amount == amount)
      && (FromSwapData(data).value.UsesTokenLedger() ==> 0 < amount)
  {
  }

  /** The execution bounds, cleared of their floors. */
  predicate WithinPrice(mode: SwapMode, args: RouteArgs, cap: u16, moved: Swapped) {
    match mode
    case ExactIn => args.quotedAmount * (MAX_BPS - cap) < moved.destinationReceived * MAX_BPS + MAX_BPS
    case ExactOut => args.amount <= moved.destinationReceived
                     && moved.sourceSpent * MAX_BPS <= args.quotedAmount * (MAX_BPS + cap)
  }

  /** The checks accept exactly the moves within the price, as long as the bounds themselves exist. */
  lemma JudgedByPrice(mode: SwapMode, args: RouteArgs, cap: u16, moved: Swapped)
    ensures Judge(mode, args, cap, moved).Ok? <==>
            WithinPrice(mode, args, cap, moved)
            && (mode.ExactIn? ==> cap <= MAX_BPS)
            && (mode.ExactOut? ==> args.quotedAmount * (MAX_BPS + cap) < (U64_MAX + 1) * MAX_BPS)
    ensures Judge(mode, args, cap, moved).Ok? ==> Judge(mode, args, cap, moved).value == moved
  {
    MinAmountOutBounds(args.quotedAmount, cap);
    MaxAmountInBounds(args.quotedAmount, cap);
    var received, spent := moved.destinationReceived, moved.sourceSpent;
    if mode.ExactIn? && cap <= MAX_BPS {
      var least := MinAmountOut(args.quotedAmount, cap).value;
      if received < least { MulMono(received + 1, least, MAX_BPS); } else { MulMono(least, received, MAX_BPS); }
    }
    if mode.ExactOut? && MaxAmountIn(args.quotedAmount, cap).Ok? {
      var most := MaxAmountIn(args.quotedAmount, cap).value;
      if spent <= most { MulMono(spent, most, MAX_BPS); } else { MulMono(most + 1, spent, MAX_BPS); }
    }
  }

  /**
   Whatever the call does, an accepted swap moved the amounts it reports, got at least the quote less the
   slippage cap for an exact-in route, and for an exact-out route the amount asked for at no more than the
   quote plus the cap.
   */
  lemma AcceptedSwapIsWithinPrice(c: SwapContext, before: Balances, data: seq<byte>, amount: u64, slippageBps: u16,
                                  remaining: seq<Account>, after: Option<Balances>)
    requires SwapResult(c, before, data, amount, slippageBps, remaining, after).Ok?
    ensures after.Some? && FromSwapData(data).Ok? && ArgsOf(data).Ok?
    ensures var moved := SwapResult(c, before, data, amount, slippageBps, remaining, after).value;
      var args := ArgsOf(data).value;
      moved.destinationReceived == after.value.destination - before.destination
      && moved.sourceSpent == before.source - after.value.source
      && WithinPrice(FromSwapData(data).value.Mode(), args, c.config.MaxSlippageBps(), moved)
      && (FromSwapData(data).value.Mode().ExactOut? ==> amount == args.amount)
  {
    AdmittedArgs(c, data, amount, slippageBps, remaining);
    JudgedByPrice(FromSwapData(data).value.Mode(), ArgsOf(data).value, c.config.MaxSlippageBps(),
                  Swapped(before.source - after.value.source, after.value.destination - before.destination));
  }

  // The same of the bytes that the manager signed

  /** The instruction starts like `exact_out_route` or `shared_accounts_exact_out_route`. */
  predicate StartsExactOut(data: seq<byte>) {
    [208, 51, 239, 151, 123, 43, 237, 92] <= data || [176, 209, 105, 168, 154, 125, 69, 62] <= data
  }

  /** The instruction starts like `route`, `route_with_token_ledger` or `shared_accounts_route`. */
  predicate StartsExactIn(data: seq<byte>) {
    [229, 23, 203, 151, 122, 227, 173, 42] <= data || [150, 86, 71, 116, 167, 93, 14, 104] <= data
    || [193, 32, 155, 51, 65, 214, 156, 129] <= data
  }

  /** The two words that stand before the last three bytes, the slippage and the platform fee. */
  function SignedAmount(data: seq<byte>): nat
    requires ARGS_TAIL <= |data|
  {
    FromLittleEndian(data[|data| - 19..|data| - 11])
  }

  function SignedQuote(data: seq<byte>): nat
    requires TOKEN_LEDGER_ARGS_TAIL <= |data|
  {
    FromLittleEndian(data[|data| - 11..|data| - 3])
  }

  /** An unset cap on slippage is 3%. */
  function CapInForce(c: SwapContext): nat {
    if c.config.maxSlippageBps == 0 then 300 else c.config.maxSlippageBps
  }

  lemma ModeIsInTheBytes(data: seq<byte>)
    requires FromSwapData(data).Ok?
    ensures FromSwapData(data).value.Mode().ExactOut? <==> StartsExactOut(data)
    ensures FromSwapData(data).value.Mode().ExactIn? <==> StartsExactIn(data)
  {
    var v := FromSwapData(data).value;
    VariantIsItsDiscriminator(data, v);
    assert forall w: SwapVariant :: w.Discriminator() <= data ==> data[0] == w.Discriminator()[0];
    assert StartsExactOut(data) ==> data[0] in [208, 176];
    assert StartsExactIn(data) ==> data[0] in [229, 150, 193];
  }

  /** Read off the bytes: where the arguments of admitted data stand. */
  lemma ArgsAreInTheBytes(c: SwapContext, data: seq<byte>, amount: u64, slippageBps: u16, remaining: seq<Account>)
    requires Admit(c, data, amount, slippageBps, remaining).Ok?
    ensures TOKEN_LEDGER_ARGS_TAIL <= |data| && ArgsOf(data).Ok? && ArgsOf(data).value.quotedAmount == SignedQuote(data)
    ensures StartsExactOut(data) ==>
              ARGS_TAIL <= |data| && amount == ArgsOf(data).value.amount == SignedAmount(data)
  {
    AdmittedArgs(c, data, amount, slippageBps, remaining);
    ModeIsInTheBytes(data);
  }

  /**
   An accepted swap by an instruction that starts like an exact-out route received the amount signed and spent no
   more than the signed quote plus the cap; by any other, it received the signed quote less the cap, short of one
   unit; and there is no other way of starting.
   */
  lemma AcceptedByTheBytes(c: SwapContext, before: Balances, data: seq<byte>, amount: u64, slippageBps: u16,
                           remaining: seq<Account>, after: Balances)
    requires SwapResult(c, before, data, amount, slippageBps, remaining, Some(after)).Ok?
    ensures TOKEN_LEDGER_ARGS_TAIL <= |data| && StartsExactOut(data) == !StartsExactIn(data)
    ensures var received, spent := after.destination - before.destination, before.source - after.source;
      if StartsExactOut(data) then
        ARGS_TAIL <= |data| && amount == SignedAmount(data) <= received
        && spent * 10_000 <= SignedQuote(data) * (10_000 + CapInForce(c))
      else
        SignedQuote(data) * (10_000 - CapInForce(c)) < received * 10_000 + 10_000
  {
    ArgsAreInTheBytes(c, data, amount, slippageBps, remaining);
    ModeIsInTheBytes(data);
    AcceptedSwapIsWithinPrice(c, before, data, amount, slippageBps, remaining, Some(after));
  }

  /**
   Nor is a swap refused that keeps within these bounds, once its instruction is admitted: a call that moves the
   balances so is accepted, as long as the bound itself exists in 64 bits.
   */
  lemma WithinTheBytesIsAccepted(c: SwapContext, before: Balances, data: seq<byte>, amount: u64, slippageBps: u16,
                                 remaining: seq<Account>, after: Balances)
    requires Admit(c, data, amount, slippageBps, remaining).Ok?
    requires before.destination <= after.destination && after.source <= before.source
    ensures TOKEN_LEDGER_ARGS_TAIL <= |data|
    ensures var received, spent := after.destination - before.destination, before.source - after.source;
      SwapResult(c, before, data, amount, slippageBps, remaining, Some(after)).Ok? <==>
      if StartsExactOut(data) then
        amount <= received && spent * 10_000 <= SignedQuote(data) * (10_000 + CapInForce(c)) < (U64_MAX + 1) * 10_000
      else
        CapInForce(c) <= 10_000 && SignedQuote(data) * (10_000 - CapInForce(c)) < received * 10_000 + 10_000
  {
    ArgsAreInTheBytes(c, data, amount, slippageBps, remaining);
    ModeIsInTheBytes(data);
    JudgedByPrice(FromSwapData(data).value.Mode(), ArgsOf(data).value, c.config.MaxSlippageBps(),
                  Swapped(before.source - after.source, after.destination - before.destination));
    AdmittedArgs(c, data, amount, slippageBps, remaining);
  }

  /** Admission itself, by the bytes and the amounts that were signed. */
  lemma AdmittedByTheBytes(c: SwapContext, data: seq<byte>, amount: u64, slippageBps: u16, remaining: seq<Account>)
    requires Admit(c, data, amount, slippageBps, remaining).Ok?
    ensures TOKEN_LEDGER_ARGS_TAIL <= |data|
    ensures FromLittleEndian(data[|data| - 3..|data| - 1]) <= slippageBps <= CapInForce(c)
    ensures if [150, 86, 71, 116, 167, 93, 14, 104] <= data then 0 < amount
            else ARGS_TAIL <= |data| && amount == SignedAmount(data)
  {
    AdmittedArgs(c, data, amount, slippageBps, remaining);
    VariantIsItsDiscriminator(data, RouteWithTokenLedger);
  }
}
